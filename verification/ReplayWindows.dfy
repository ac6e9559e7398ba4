/**
 The sliding replay window of received frame counters, and that forgetting old
 counters never changes an answer.
 */
module ReplayWindows {
  import opened Common

  // ---------------------------------------------------------------------------
  // The window as a value
  // ---------------------------------------------------------------------------

  datatype Window = Window(seen: set<nat>, size: nat, highest: int) {
    predicate WouldAccept(counter: nat) {
      counter !in seen && highest - counter < size
    }

    /** Record an acceptable counter; a new highest one evicts everything that fell out of the window. */
    function Accept(counter: nat): Window {
      if !WouldAccept(counter) then this
      else if counter > highest then
        Window((set c | c in seen + {counter} && c >= counter - size + 1), size, counter)
      else this.(seen := seen + {counter})
    }
  }

  function NewWindow(size: nat): Window {
    Window({}, size, -1)
  }

  // ---------------------------------------------------------------------------
  // Perfect memory
  // ---------------------------------------------------------------------------

  /** New, and less than `size` behind every counter accepted so far. */
  ghost predicate Acceptable(accepted: set<nat>, size: nat, counter: nat) {
    counter !in accepted && forall c :: c in accepted ==> c - counter < size
  }

  /** `w` is what the window keeps of the counters `accepted` in all. */
  ghost predicate Refines(w: Window, accepted: set<nat>) {
    && w.size >= 1
    && (if accepted == {} then w.highest == -1 else w.highest in accepted)
    && (forall c :: c in accepted ==> c <= w.highest)
    && (forall c :: c in w.seen <==> c in accepted && w.highest - c < w.size)
  }

  lemma NewRefines(size: nat)
    requires size >= 1
    ensures Refines(NewWindow(size), {})
  {
  }

  lemma AnswersPerfectly(w: Window, accepted: set<nat>, counter: nat)
    requires Refines(w, accepted)
    ensures w.WouldAccept(counter) <==> Acceptable(accepted, w.size, counter)
  {
    if accepted != {} {
      assert w.highest in accepted;
    }
  }

  lemma AcceptRefines(w: Window, accepted: set<nat>, counter: nat)
    requires Refines(w, accepted)
    ensures Refines(w.Accept(counter), if w.WouldAccept(counter) then accepted + {counter} else accepted)
  {
    var grown := accepted + {counter};
    if w.WouldAccept(counter) {
      assert counter in grown;
      assert grown != {};
    }
  }

  function Answers(w: Window, calls: seq<nat>): seq<bool>
    decreases |calls|
  {
    if calls == [] then [] else [w.WouldAccept(calls[0])] + Answers(w.Accept(calls[0]), calls[1..])
  }

  ghost function PerfectAnswers(size: nat, accepted: set<nat>, calls: seq<nat>): seq<bool>
    decreases |calls|
  {
    if calls == [] then []
    else
      var ok := Acceptable(accepted, size, calls[0]);
      [ok] + PerfectAnswers(size, if ok then accepted + {calls[0]} else accepted, calls[1..])
  }

  /** Over any sequence of calls the window answers as if it remembered every counter it ever accepted. */
  lemma {:induction false} NeverForgets(w: Window, accepted: set<nat>, calls: seq<nat>)
    requires Refines(w, accepted)
    ensures Answers(w, calls) == PerfectAnswers(w.size, accepted, calls)
    decreases |calls|
  {
    if calls != [] {
      AnswersPerfectly(w, accepted, calls[0]);
      AcceptRefines(w, accepted, calls[0]);
      NeverForgets(w.Accept(calls[0]), if w.WouldAccept(calls[0]) then accepted + {calls[0]} else accepted, calls[1..]);
    }
  }

  lemma {:induction false} RangeSize(s: set<nat>, low: int, high: int)
    requires forall c :: c in s ==> low < c <= high
    requires low <= high
    ensures |s| <= high - low
    decreases high - low
  {
    if low == high {
      assert s == {};
    } else {
      var rest := set c | c in s && c != high;
      RangeSize(rest, low, high - 1);
      if high >= 0 && high in s {
        assert s == rest + {high};
      } else {
        assert s == rest;
      }
    }
  }

  /** The stored set never outgrows the window. */
  lemma StaysSmall(w: Window, accepted: set<nat>)
    requires Refines(w, accepted)
    ensures |w.seen| <= w.size
  {
    RangeSize(w.seen, w.highest - w.size, w.highest);
  }

  /** The window after a sequence of calls. */
  function AfterCalls(w: Window, calls: seq<nat>): Window
    decreases |calls|
  {
    if calls == [] then w else AfterCalls(w.Accept(calls[0]), calls[1..])
  }

  lemma {:induction false} CallsRefine(w: Window, accepted: set<nat>, calls: seq<nat>) returns (all: set<nat>)
    requires Refines(w, accepted)
    ensures Refines(AfterCalls(w, calls), all)
    ensures AfterCalls(w, calls).size == w.size
    decreases |calls|
  {
    hide Refines;
    if calls == [] {
      all := accepted;
    } else {
      AcceptRefines(w, accepted, calls[0]);
      all := CallsRefine(w.Accept(calls[0]), if w.WouldAccept(calls[0]) then accepted + {calls[0]} else accepted, calls[1..]);
    }
  }

  /**
   A new window, over any sequence of calls: every answer is that of perfect memory, and no
   more than `size` counters are ever stored.
   */
  lemma NewWindowIsPerfect(size: nat, calls: seq<nat>)
    requires size >= 1
    ensures Answers(NewWindow(size), calls) == PerfectAnswers(size, {}, calls)
    ensures |AfterCalls(NewWindow(size), calls).seen| <= size
  {
    hide Answers, PerfectAnswers, AfterCalls;
    NewRefines(size);
    NeverForgets(NewWindow(size), {}, calls);
    var all := CallsRefine(NewWindow(size), {}, calls);
    StaysSmall(AfterCalls(NewWindow(size), calls), all);
  }

  lemma {:induction false} PerfectByPlace(size: nat, accepted: set<nat>, calls: seq<nat>, i: nat)
    requires i < |calls|
    ensures |PerfectAnswers(size, accepted, calls)| == |calls|
    ensures
      var answers := PerfectAnswers(size, accepted, calls);
      answers[i] <==> Acceptable(accepted, size, calls[i])
                      && forall j :: 0 <= j < i && answers[j] ==> calls[j] != calls[i] && calls[j] - calls[i] < size
    decreases |calls|
  {
    var answers := PerfectAnswers(size, accepted, calls);
    var grown := if answers[0] then accepted + {calls[0]} else accepted;
    if |calls| > 1 {
      PerfectByPlace(size, grown, calls[1..], if i == 0 then 0 else i - 1);
    }
    if i > 0 {
      var rest := PerfectAnswers(size, grown, calls[1..]);
      assert forall j :: 0 < j <= i ==> answers[j] == rest[j - 1] && calls[j] == calls[1..][j - 1];
      assert forall j :: 0 <= j < i - 1 ==> rest[j] == answers[j + 1] && calls[1..][j] == calls[j + 1];
    }
  }

  /**
   The same call by call: a counter is accepted exactly when no call before it that was accepted
   had that counter, or one that is `size` or more above it.
   */
  lemma NewWindowAccepts(size: nat, calls: seq<nat>, i: nat)
    requires size >= 1 && i < |calls|
    ensures |Answers(NewWindow(size), calls)| == |calls|
    ensures
      var answers := Answers(NewWindow(size), calls);
      answers[i] <==> forall j :: 0 <= j < i && answers[j] ==> calls[j] != calls[i] && calls[j] < calls[i] + size
  {
    hide Answers, PerfectAnswers;
    NewWindowIsPerfect(size, calls);
    PerfectByPlace(size, {}, calls, i);
  }

  // ---------------------------------------------------------------------------
  // The window as an object
  // ---------------------------------------------------------------------------

  class ReplayWindow {
    var seen: set<nat>
    const size: nat
    var highest: int

    ghost function State(): Window
      reads this
    {
      Window(seen, size, highest)
    }

    constructor (size: nat)
      requires size >= 1
      ensures State() == NewWindow(size)
    {
      this.size := size;
      seen, highest := {}, -1;
    }

    method WouldAccept(counter: int) returns (r: Result<bool, string>)
      ensures r.Err? <==> counter < 0
      ensures r.Ok? ==> r.value == State().WouldAccept(counter)
    {
      if counter < 0 {
        return Err("counter must be a non-negative integer");
      }
      if counter in seen {
        return Ok(false);
      }
      if highest - counter >= size {
        return Ok(false);
      }
      return Ok(true);
    }

    method Accept(counter: int) returns (r: Result<bool, string>)
      modifies this
      ensures r.Err? <==> counter < 0
      ensures r.Ok? ==> r.value == old(State()).WouldAccept(counter)
      ensures State() == if counter < 0 then old(State()) else old(State()).Accept(counter)
    {
      r := WouldAccept(counter);
      if r.Err? || !r.value {
        return;
      }
      seen := seen + {counter};
      if counter > highest {
        highest := counter;
        var floor := counter - size + 1;
        ghost var before: set<nat> := seen;
        var todo := seen;
        while todo != {}
          invariant todo <= before && highest == counter
          invariant forall c :: c in seen <==> c in before && (c in todo || c >= floor)
          decreases |todo|
        {
          var c :| c in todo;
          if c < floor {
            seen := seen - {c};
          }
          todo := todo - {c};
        }
        assert before == old(seen) + {counter as nat};
        assert seen == (set c | c in before && c >= floor);
      }
    }
  }
}
