/**
 The environment a template is expanded against: pairs in falling priority, with
 an index that caches where each key stands.
 */
module EnvMaps {
  import opened Common

  type Pair = (string, string)

  // ---------------------------------------------------------------------------
  // Lists of pairs, and the linear scan the index stands for
  // ---------------------------------------------------------------------------

  function FirstMatch(pairs: seq<Pair>, name: string): Option<string> {
    if pairs == [] then None
    else if pairs[0].0 == name then Some(pairs[0].1)
    else FirstMatch(pairs[1..], name)
  }

  ghost function Keys(pairs: seq<Pair>): set<string> {
    set i | 0 <= i < |pairs| :: pairs[i].0
  }

  /** Each key's first pair, in order. */
  ghost function Dedup(pairs: seq<Pair>): seq<Pair> {
    if pairs == [] then []
    else
      var rest, last := pairs[..|pairs| - 1], pairs[|pairs| - 1];
      if last.0 in Keys(rest) then Dedup(rest) else Dedup(rest) + [last]
  }

  ghost predicate UniqueKeys(pairs: seq<Pair>) {
    forall i, j :: 0 <= i < j < |pairs| ==> pairs[i].0 != pairs[j].0
  }

  function Flat(files: seq<seq<Pair>>): seq<Pair> {
    if files == [] then [] else Flat(files[..|files| - 1]) + files[|files| - 1]
  }

  // ---------------------------------------------------------------------------
  // The map
  // ---------------------------------------------------------------------------

  ghost predicate Indexes(index: map<string, nat>, entries: seq<Pair>) {
    && (forall key :: key in index ==> index[key] < |entries| && entries[index[key]].0 == key)
    && forall i :: 0 <= i < |entries| ==> entries[i].0 in index && index[entries[i].0] == i
  }

  datatype EnvMap = EnvMap(entries: seq<Pair>, index: map<string, nat>) {
    ghost predicate Valid() {
      Indexes(index, entries)
    }

    function Get(name: string): (r: Option<string>)
      requires Valid()
      ensures r == FirstMatch(entries, name)
    {
      if name in index then
        MatchAt(entries, name, index[name]);
        Some(entries[index[name]].1)
      else
        NoMatch(entries, name);
        None
    }
  }

  lemma {:induction false} MatchAt(pairs: seq<Pair>, name: string, at: nat)
    requires at < |pairs| && pairs[at].0 == name && UniqueBefore(pairs, at)
    ensures FirstMatch(pairs, name) == Some(pairs[at].1)
  {
    if at > 0 {
      MatchAt(pairs[1..], name, at - 1);
    }
  }

  ghost predicate UniqueBefore(pairs: seq<Pair>, at: nat)
    requires at < |pairs|
  {
    forall i :: 0 <= i < at ==> pairs[i].0 != pairs[at].0
  }

  lemma {:induction false} NoMatch(pairs: seq<Pair>, name: string)
    requires forall i :: 0 <= i < |pairs| ==> pairs[i].0 != name
    ensures FirstMatch(pairs, name) == None
  {
    if pairs != [] {
      NoMatch(pairs[1..], name);
    }
  }

  /** The loop every builder runs: a pair goes in unless its key is there already. */
  method PushNew(env: EnvMap, pairs: seq<Pair>, ghost before: seq<Pair>) returns (r: EnvMap)
    requires env.Valid() && env.entries == Dedup(before)
    ensures r.Valid() && r.entries == Dedup(before + pairs)
  {
    r := env;
    assert before + pairs[..0] == before;
    for i := 0 to |pairs|
      invariant r.Valid() && r.entries == Dedup(before + pairs[..i])
    {
      ghost var seen := before + pairs[..i];
      assert before + pairs[..i + 1] == seen + [pairs[i]];
      assert (seen + [pairs[i]])[..|seen|] == seen;
      DedupKeys(seen);
      InKeys(r.entries, pairs[i].0);
      if pairs[i].0 !in r.index {
        r := EnvMap(r.entries + [pairs[i]], r.index[pairs[i].0 := |r.entries|]);
      }
    }
    assert pairs[..|pairs|] == pairs;
  }

  method FromIter(pairs: seq<Pair>) returns (r: EnvMap)
    ensures r.Valid() && r.entries == Dedup(pairs)
  {
    r := PushNew(EnvMap([], map[]), pairs, []);
    assert [] + pairs == pairs;
  }

  method WithOverrides(env: EnvMap, overrides: seq<Pair>) returns (r: EnvMap)
    requires env.Valid()
    ensures r.Valid() && r.entries == Dedup(overrides + env.entries)
  {
    r := PushNew(EnvMap([], map[]), overrides, []);
    assert [] + overrides == overrides;
    r := PushNew(r, env.entries, overrides);
  }

  /** What reading each file gave, in the order the files are listed. */
  datatype File = Loaded(pairs: seq<Pair>) | Failed(reason: string)

  function Contents(files: seq<File>): seq<Pair>
    requires forall i :: 0 <= i < |files| ==> files[i].Loaded?
  {
    Flat(seq(|files|, i requires 0 <= i < |files| => files[i].pairs))
  }

  lemma ContentsNext(files: seq<File>, i: nat)
    requires i < |files| && forall j :: 0 <= j <= i ==> files[j].Loaded?
    ensures Contents(files[..i + 1]) == Contents(files[..i]) + files[i].pairs
  {
    var all := seq(i + 1, j requires 0 <= j < i + 1 => files[..i + 1][j].pairs);
    assert all[..i] == seq(i, j requires 0 <= j < i => files[..i][j].pairs);
  }

  method WithEnvFiles(env: EnvMap, files: seq<File>) returns (r: Result<EnvMap, string>)
    requires env.Valid()
    ensures r.Ok? <==> forall i :: 0 <= i < |files| ==> files[i].Loaded?
    ensures r.Ok? ==> r.value.Valid() && r.value.entries == Dedup(env.entries + Contents(files))
    ensures r.Err? ==> exists i :: 0 <= i < |files| && files[i] == Failed(r.error)
                                   && forall j :: 0 <= j < i ==> files[j].Loaded?
  {
    var filePairs: seq<Pair> := [];
    for i := 0 to |files|
      invariant forall j :: 0 <= j < i ==> files[j].Loaded?
      invariant filePairs == Dedup(Contents(files[..i]))
    {
      if files[i].Failed? {
        return Err(files[i].reason);
      }
      filePairs := AddFile(filePairs, files[i].pairs, Contents(files[..i]));
      ContentsNext(files, i);
    }
    assert files[..|files|] == files;
    var merged := PushNew(EnvMap([], map[]), env.entries, []);
    assert [] + env.entries == env.entries;
    merged := PushNew(merged, filePairs, env.entries);
    DedupAgain(env.entries, Contents(files));
    r := Ok(merged);
  }

  /** The pairs of one file, looked for one by one in what the files gave so far. */
  method AddFile(filePairs: seq<Pair>, pairs: seq<Pair>, ghost before: seq<Pair>) returns (r: seq<Pair>)
    requires filePairs == Dedup(before)
    ensures r == Dedup(before + pairs)
  {
    r := filePairs;
    assert before + pairs[..0] == before;
    for i := 0 to |pairs|
      invariant r == Dedup(before + pairs[..i])
    {
      ghost var seen := before + pairs[..i];
      assert before + pairs[..i + 1] == seen + [pairs[i]];
      assert (seen + [pairs[i]])[..|seen|] == seen;
      DedupKeys(seen);
      InKeys(r, pairs[i].0);
      if !exists j :: 0 <= j < |r| && r[j].0 == pairs[i].0 {
        r := r + [pairs[i]];
      }
    }
    assert pairs[..|pairs|] == pairs;
  }

  // ---------------------------------------------------------------------------
  // Keeping each key's first pair
  // ---------------------------------------------------------------------------

  lemma InKeys(pairs: seq<Pair>, key: string)
    ensures key in Keys(pairs) <==> exists i :: 0 <= i < |pairs| && pairs[i].0 == key
  {}

  lemma KeysOfBoth(a: seq<Pair>, b: seq<Pair>)
    ensures Keys(a + b) == Keys(a) + Keys(b)
  {
    forall key ensures key in Keys(a + b) <==> key in Keys(a) || key in Keys(b) {
      if key in Keys(a) {
        var i :| 0 <= i < |a| && a[i].0 == key;
        assert (a + b)[i].0 == key;
      }
      if key in Keys(b) {
        var i :| 0 <= i < |b| && b[i].0 == key;
        assert (a + b)[|a| + i].0 == key;
      }
    }
  }

  lemma {:induction false} DedupKeys(pairs: seq<Pair>)
    ensures Keys(Dedup(pairs)) == Keys(pairs)
  {
    if pairs != [] {
      var rest, last := pairs[..|pairs| - 1], pairs[|pairs| - 1];
      DedupKeys(rest);
      assert pairs == rest + [last];
      KeysOfBoth(rest, [last]);
      KeysOfBoth(Dedup(rest), [last]);
      assert [last][0] == last && last.0 in Keys([last]);
      assert Keys([last]) == {last.0};
    }
  }

  lemma {:induction false} DedupIsUnique(pairs: seq<Pair>)
    ensures UniqueKeys(Dedup(pairs))
  {
    if pairs != [] {
      var rest := pairs[..|pairs| - 1];
      DedupIsUnique(rest);
      DedupKeys(rest);
      forall i | 0 <= i < |Dedup(rest)| ensures Dedup(rest)[i].0 in Keys(rest) {
        InKeys(Dedup(rest), Dedup(rest)[i].0);
      }
    }
  }

  lemma {:induction false} DedupAgain(a: seq<Pair>, b: seq<Pair>)
    ensures Dedup(a + Dedup(b)) == Dedup(a + b)
  {
    if b == [] {
    } else {
      var rest, last := b[..|b| - 1], b[|b| - 1];
      DedupAgain(a, rest);
      assert a + b == (a + rest) + [last];
      assert (a + b)[..|a + b| - 1] == a + rest;
      KeysOfBoth(a, rest);
      if last.0 !in Keys(rest) {
        var kept := a + Dedup(rest);
        assert a + Dedup(b) == kept + [last];
        assert (kept + [last])[..|kept|] == kept;
        DedupKeys(rest);
        KeysOfBoth(a, Dedup(rest));
      }
    }
  }

  lemma DedupNext(pairs: seq<Pair>, last: Pair)
    ensures Dedup(pairs + [last]) == if last.0 in Keys(pairs) then Dedup(pairs) else Dedup(pairs) + [last]
  {
    hide Keys;
    assert (pairs + [last])[..|pairs|] == pairs;
  }

  lemma {:induction false} DedupFirst(a: seq<Pair>, b: seq<Pair>)
    ensures Dedup(Dedup(a) + b) == Dedup(a + b)
  {
    hide Keys, Dedup;
    if b == [] {
      DedupAgain([], a);
      assert [] + Dedup(a) == Dedup(a) && [] + a == a && Dedup(a) + b == Dedup(a) && a + b == a;
    } else {
      var rest, last := b[..|b| - 1], b[|b| - 1];
      DedupFirst(a, rest);
      assert a + b == (a + rest) + [last] && Dedup(a) + b == (Dedup(a) + rest) + [last];
      DedupNext(a + rest, last);
      DedupNext(Dedup(a) + rest, last);
      DedupKeys(a);
      KeysOfBoth(a, rest);
      KeysOfBoth(Dedup(a), rest);
    }
  }

  lemma {:induction false} FirstMatchIn(a: seq<Pair>, b: seq<Pair>, name: string)
    ensures FirstMatch(a + b, name) == if name in Keys(a) then FirstMatch(a, name) else FirstMatch(b, name)
    ensures name in Keys(a) <==> FirstMatch(a, name).Some?
  {
    if a == [] {
      assert a + b == b;
    } else {
      assert (a + b)[1..] == a[1..] + b;
      FirstMatchIn(a[1..], b, name);
      assert a == [a[0]] + a[1..];
      KeysOfBoth([a[0]], a[1..]);
      assert Keys([a[0]]) == {[a[0]][0].0};
    }
  }

  // ---------------------------------------------------------------------------
  // Results
  // ---------------------------------------------------------------------------

  /** Dropping later pairs changes no answer. */
  lemma {:induction false} DedupAnswersTheSame(pairs: seq<Pair>, name: string)
    ensures FirstMatch(Dedup(pairs), name) == FirstMatch(pairs, name)
  {
    if pairs != [] {
      var rest, last := pairs[..|pairs| - 1], pairs[|pairs| - 1];
      DedupAnswersTheSame(rest, name);
      assert pairs == rest + [last];
      DedupKeys(rest);
      FirstMatchIn(rest, [last], name);
      FirstMatchIn(Dedup(rest), [last], name);
    }
  }

  /** How a map is built up after its first pairs. */
  datatype Layer = Overrides(pairs: seq<Pair>) | Files(files: seq<seq<Pair>>)

  /** What each builder does to the entries. */
  ghost function Layered(entries: seq<Pair>, layer: Layer): seq<Pair> {
    match layer
    case Overrides(pairs) => Dedup(pairs + entries)
    case Files(files) => Dedup(entries + Flat(files))
  }

  ghost function Built(first: seq<Pair>, layers: seq<Layer>): seq<Pair> {
    if layers == [] then Dedup(first)
    else Layered(Built(first, layers[..|layers| - 1]), layers[|layers| - 1])
  }

  /** The list a linear scan would go through, nothing dropped. */
  function Searched(first: seq<Pair>, layers: seq<Layer>): seq<Pair> {
    if layers == [] then first
    else
      var below, last := Searched(first, layers[..|layers| - 1]), layers[|layers| - 1];
      if last.Overrides? then last.pairs + below else below + Flat(last.files)
  }

  /** Whatever chain of builders made the map, a lookup is the linear scan of everything given to it. */
  lemma {:induction false} IndexIsFaithful(first: seq<Pair>, layers: seq<Layer>, name: string)
    ensures Built(first, layers) == Dedup(Searched(first, layers))
    ensures UniqueKeys(Built(first, layers))
    ensures FirstMatch(Built(first, layers), name) == FirstMatch(Searched(first, layers), name)
  {
    if layers != [] {
      var rest, last := layers[..|layers| - 1], layers[|layers| - 1];
      IndexIsFaithful(first, rest, name);
      match last
      case Overrides(pairs) => DedupAgain(pairs, Searched(first, rest));
      case Files(files) => DedupFirst(Searched(first, rest), Flat(files));
    }
    DedupIsUnique(Searched(first, layers));
    DedupAnswersTheSame(Searched(first, layers), name);
  }

  /** Among files, the earliest listed one that has the key wins. */
  lemma {:induction false} EarliestFileWins(files: seq<seq<Pair>>, i: nat, name: string)
    requires i < |files| && name in Keys(files[i]) && forall j :: 0 <= j < i ==> name !in Keys(files[j])
    ensures name in Keys(Flat(files)) && FirstMatch(Flat(files), name) == FirstMatch(files[i], name)
  {
    var rest, last := files[..|files| - 1], files[|files| - 1];
    KeysOfBoth(Flat(rest), last);
    FirstMatchIn(Flat(rest), last, name);
    if i < |files| - 1 {
      EarliestFileWins(rest, i, name);
    } else {
      NotInAny(rest, name);
    }
  }

  lemma {:induction false} NotInAny(files: seq<seq<Pair>>, name: string)
    requires forall j :: 0 <= j < |files| ==> name !in Keys(files[j])
    ensures name !in Keys(Flat(files))
  {
    if files != [] {
      NotInAny(files[..|files| - 1], name);
      KeysOfBoth(Flat(files[..|files| - 1]), files[|files| - 1]);
    }
  }

  /** Overrides come first, then what was there, then the files. */
  lemma PriorityOrder(overrides: seq<Pair>, first: seq<Pair>, files: seq<seq<Pair>>, name: string)
    ensures FirstMatch(Built(first, [Overrides(overrides), Files(files)]), name)
            == if name in Keys(overrides) then FirstMatch(overrides, name)
               else if name in Keys(first) then FirstMatch(first, name)
               else FirstMatch(Flat(files), name)
  {
    hide FirstMatch, Dedup, Keys, Flat, Built;
    var layers := [Overrides(overrides), Files(files)];
    IndexIsFaithful(first, layers, name);
    assert layers[..1] == [Overrides(overrides)] && [Overrides(overrides)][..0] == [];
    assert Searched(first, [Overrides(overrides)]) == overrides + first;
    assert Searched(first, layers) == overrides + (first + Flat(files));
    FirstMatchIn(overrides, first + Flat(files), name);
    FirstMatchIn(first, Flat(files), name);
  }
}
