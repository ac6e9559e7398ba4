/** The epoch tracker that a session and its frame cryptors share. */
module KeyEpochs {
  import opened Common
  import opened Crypto

  class KeyEpoch {
    var epoch: nat
    var roomKey: Option<GroupKey>

    constructor ()
      ensures epoch == 0 && roomKey == None
    {
      epoch, roomKey := 0, None;
    }

    /** Only a larger epoch counts, and it costs the room key. */
    method AdvanceTo(next: int) returns (r: Result<bool, string>)
      modifies this
      ensures r.Err? <==> next < 0
      ensures r.Ok? ==> r.value == (next > old(epoch))
      ensures epoch == if next > old(epoch) then next else old(epoch)
      ensures roomKey == if next > old(epoch) then None else old(roomKey)
    {
      if next < 0 {
        return Err("epoch must be a non-negative integer");
      }
      if next == epoch {
        return Ok(false);
      }
      if next < epoch {
        return Ok(false);
      }
      epoch := next;
      roomKey := None;
      return Ok(true);
    }

    method SetRoomKey(key: GroupKey)
      modifies this
      ensures roomKey == Some(key) && epoch == old(epoch)
    {
      roomKey := Some(key);
    }

    predicate HasRoomKey()
      reads this
    {
      roomKey.Some?
    }

    method Clear()
      modifies this
      ensures roomKey == None && epoch == old(epoch)
    {
      roomKey := None;
    }
  }
}
