// internal/pbr/networks.go: Merge, ValidateNetworks, Equal and the state files.
module NetworkSets {
  import opened Strings
  import opened Networks

  function CanonSet(values: seq<string>): set<string> {
    set v | v in values && CanonicalNetwork(v).Some? :: CanonicalNetwork(v).value
  }

  function CanonSets(groups: seq<seq<string>>): set<string> {
    set g, v | g in groups && v in g && CanonicalNetwork(v).Some? :: CanonicalNetwork(v).value
  }

  function Limit(max: int): nat {
    if max <= 0 then DEFAULT_MAX_NETWORKS else max
  }

  // The lists Merge and ValidateNetworks return.
  ghost predicate CanonList(list: seq<string>) {
    StrictlySorted(list) && forall x | x in list :: Canonical(x)
  }

  // What Merge computes, whatever order Go walks its map in.
  ghost function Merged(groups: seq<seq<string>>): seq<string> {
    SortedOf(CanonSets(groups))
  }

  ghost predicate AllAcceptable(values: seq<string>, hostsOnly: bool) {
    forall v | v in values :: CanonicalNetwork(v).Some? && (hostsOnly ==> IsHost(CanonicalNetwork(v).value))
  }

  // What ValidateNetworks computes; None is any of its errors.
  ghost function Validated(values: seq<string>, hostsOnly: bool, max: int): Option<seq<string>> {
    if AllAcceptable(values, hostsOnly) && |CanonSet(values)| <= Limit(max)
    then Some(SortedOf(CanonSet(values)))
    else None
  }

  // ---- the code ----

  // Walking a Go map and sort.Strings: the pick order is arbitrary.
  method SortedSlice(values: set<string>) returns (out: seq<string>)
    ensures out == SortedOf(values)
  {
    hide StrictlySorted, InsertSorted, SortedOf;
    SortedOfElems([]);
    out := [];
    var rest := values;
    while rest != {}
      invariant rest <= values && StrictlySorted(out) && Elems(out) == values - rest
      decreases rest
    {
      var v :| v in rest;
      InsertSortedCorrect(v, out);
      out := InsertSorted(v, out);
      rest := rest - {v};
    }
    SortedOfElems(out);
  }

  method Merge(groups: seq<seq<string>>) returns (out: seq<string>)
    ensures out == Merged(groups)
  {
    var values: set<string> := {};
    for i := 0 to |groups|
      invariant values == CanonSets(groups[..i])
    {
      var group := groups[i];
      for j := 0 to |group|
        invariant values == CanonSets(groups[..i]) + CanonSet(group[..j])
      {
        SetGrows(group, j);
        match CanonicalNetwork(group[j])
        case Some(value) => values := values + {value};
        case None =>
      }
      assert group[..|group|] == group;
      SetsGrow(groups, i);
    }
    assert groups[..|groups|] == groups;
    out := SortedSlice(values);
  }

  method ValidateNetworks(values: seq<string>, hostsOnly: bool, max: int) returns (r: Option<seq<string>>)
    ensures r == Validated(values, hostsOnly, max)
  {
    var limit := Limit(max);
    var found: set<string> := {};
    for i := 0 to |values|
      invariant found == CanonSet(values[..i]) && |found| <= limit
      invariant AllAcceptable(values[..i], hostsOnly)
    {
      SetGrows(values, i);
      assert values[i] in values;
      var value := CanonicalNetwork(values[i]);
      if value.None? || (hostsOnly && !IsHost(value.value)) {
        return None;
      }
      found := found + {value.value};
      if |found| > limit {
        // The set only grows, so the whole list exceeds the limit as well.
        SetPrefix(values, i + 1);
        SubsetSize(CanonSet(values[..i + 1]), CanonSet(values));
        return None;
      }
    }
    assert values[..|values|] == values;
    var out := SortedSlice(found);
    return Some(out);
  }

  method Equal(a: seq<string>, b: seq<string>) returns (same: bool)
    ensures same <==> a == b
  {
    if |a| != |b| {
      return false;
    }
    for i := 0 to |a|
      invariant a[..i] == b[..i]
    {
      if a[i] != b[i] {
        return false;
      }
      assert a[..i + 1] == a[..i] + [a[i]] && b[..i + 1] == b[..i] + [b[i]];
    }
    assert a == a[..|a|] && b == b[..|b|];
    return true;
  }

  lemma SetGrows(values: seq<string>, i: nat)
    requires i < |values|
    ensures CanonSet(values[..i + 1]) ==
            CanonSet(values[..i]) + (match CanonicalNetwork(values[i]) case Some(v) => {v} case None => {})
  {
    assert values[..i + 1] == values[..i] + [values[i]];
  }

  lemma SetsGrow(groups: seq<seq<string>>, i: nat)
    requires i < |groups|
    ensures CanonSets(groups[..i + 1]) == CanonSets(groups[..i]) + CanonSet(groups[i])
  {
    assert groups[..i + 1] == groups[..i] + [groups[i]];
  }

  lemma SetPrefix(values: seq<string>, i: nat)
    requires i <= |values|
    ensures CanonSet(values[..i]) <= CanonSet(values)
  {
  }

  lemma SubsetSize<T>(a: set<T>, b: set<T>)
    requires a <= b
    ensures |a| <= |b|
    ensures |a| == |b| ==> a == b
  {
    assert b == a + (b - a);
    assert |b| == |a| + |b - a|;
  }

  // ---- the set algebra ----

  lemma CanonSets2(a: seq<string>, b: seq<string>)
    ensures CanonSets([a, b]) == CanonSet(a) + CanonSet(b)
  {
    forall x ensures x in CanonSets([a, b]) <==> x in CanonSet(a) + CanonSet(b) {
      assert a in [a, b] && b in [a, b];
    }
  }

  lemma CanonSets3(a: seq<string>, b: seq<string>, c: seq<string>)
    ensures CanonSets([a, b, c]) == CanonSet(a) + CanonSet(b) + CanonSet(c)
  {
    forall x ensures x in CanonSets([a, b, c]) <==> x in CanonSet(a) + CanonSet(b) + CanonSet(c) {
      assert a in [a, b, c] && b in [a, b, c] && c in [a, b, c];
    }
  }

  lemma CanonListSet(list: seq<string>)
    requires forall x | x in list :: Canonical(x)
    ensures CanonSet(list) == Elems(list)
  {
  }

  lemma SortedCanon(s: set<string>)
    requires forall x | x in s :: Canonical(x)
    ensures CanonList(SortedOf(s)) && CanonSet(SortedOf(s)) == s
  {
    CanonListSet(SortedOf(s));
  }

  lemma CanonSetCanonical(values: seq<string>)
    ensures forall x | x in CanonSet(values) :: Canonical(x)
  {
    forall x | x in CanonSet(values) ensures Canonical(x) {
      var v :| v in values && CanonicalNetwork(v) == Some(x);
      CanonicalIdempotent(v);
    }
  }

  lemma CanonSetsCanonical(groups: seq<seq<string>>)
    ensures forall x | x in CanonSets(groups) :: Canonical(x)
  {
    forall x | x in CanonSets(groups) ensures Canonical(x) {
      var g, v :| g in groups && v in g && CanonicalNetwork(v) == Some(x);
      CanonicalIdempotent(v);
    }
  }

  // Merge returns the strictly sorted list of exactly the canonical members.
  lemma MergedMeaning(groups: seq<seq<string>>)
    ensures CanonList(Merged(groups)) && CanonSet(Merged(groups)) == Elems(Merged(groups)) == CanonSets(groups)
    ensures forall x :: x in Merged(groups) <==> exists g, v :: g in groups && v in g && CanonicalNetwork(v) == Some(x)
  {
    CanonSetsCanonical(groups);
    SortedCanon(CanonSets(groups));
  }

  lemma MergedPair(a: seq<string>, b: seq<string>)
    requires CanonList(a) && CanonList(b)
    ensures Merged([a, b]) == SortedOf(Elems(a) + Elems(b))
    ensures CanonList(Merged([a, b])) && Elems(Merged([a, b])) == Elems(a) + Elems(b)
  {
    CanonSets2(a, b);
    CanonListSet(a);
    CanonListSet(b);
    MergedMeaning([a, b]);
  }

  // On canonical lists Merge is an associative, commutative, idempotent join.
  lemma MergeAssociative(a: seq<string>, b: seq<string>, c: seq<string>)
    requires CanonList(a) && CanonList(b) && CanonList(c)
    ensures Merged([Merged([a, b]), c]) == Merged([a, Merged([b, c])])
  {
    MergedPair(a, b);
    MergedPair(b, c);
    MergedPair(Merged([a, b]), c);
    MergedPair(a, Merged([b, c]));
    assert (Elems(a) + Elems(b)) + Elems(c) == Elems(a) + (Elems(b) + Elems(c));
  }

  lemma MergeIsJoin(a: seq<string>, b: seq<string>)
    requires CanonList(a) && CanonList(b)
    ensures Merged([a, b]) == Merged([b, a])
    ensures Merged([a, b]) == b <==> Elems(a) <= Elems(b)
  {
    MergedPair(a, b);
    MergedPair(b, a);
    assert Elems(a) + Elems(b) == Elems(b) + Elems(a);
    if Elems(a) <= Elems(b) {
      assert Elems(a) + Elems(b) == Elems(b);
      SortedOfElems(b);
    }
  }

  // On the lists the daemon keeps, list equality is set equality, and so is
  // comparing lengths when one set contains the other.
  lemma EqualIsSetEquality(a: seq<string>, b: seq<string>)
    requires CanonList(a) && CanonList(b)
    ensures a == b <==> Elems(a) == Elems(b)
    ensures Elems(a) <= Elems(b) ==> (a == b <==> |a| >= |b|)
  {
    if Elems(a) == Elems(b) {
      SortedUnique(a, b);
    }
    SortedSize(a);
    SortedSize(b);
    if Elems(a) <= Elems(b) {
      SubsetSize(Elems(a), Elems(b));
    }
  }

  // Validating a merge with a positive limit is only the size test.
  lemma ValidatedMerge(groups: seq<seq<string>>, max: int)
    requires max > 0
    ensures Validated(Merged(groups), false, max) == if |Merged(groups)| <= max then Some(Merged(groups)) else None
  {
    var m := Merged(groups);
    MergedMeaning(groups);
    SortedSize(m);
    SortedOfElems(m);
    CanonListSet(m);
  }

  lemma ValidatedList(values: seq<string>, hostsOnly: bool, max: int)
    requires Validated(values, hostsOnly, max).Some?
    ensures var r := Validated(values, hostsOnly, max).value;
            CanonList(r) && Elems(r) == CanonSet(values) && |r| <= Limit(max) &&
            (hostsOnly ==> forall x | x in r :: IsHost(x))
  {
    CanonSetCanonical(values);
    SortedCanon(CanonSet(values));
  }

  // Validation fails on a member that is not acceptable or on more networks than
  // the limit, which is 4096 where none is set, and on nothing else.
  lemma ValidatedExactly(values: seq<string>, hostsOnly: bool, max: int)
    ensures Validated(values, hostsOnly, max).Some? <==>
      && (forall v | v in values :: CanonicalNetwork(v).Some? && (hostsOnly ==> IsHost(CanonicalNetwork(v).value)))
      && |CanonSet(values)| <= (if max <= 0 then 4096 else max)
  {
    hide CanonicalNetwork, IsHost;
  }

  // A canonical list validates to itself, up to the limit.
  lemma ValidatedSelf(list: seq<string>, hostsOnly: bool, max: int)
    requires CanonList(list) && (hostsOnly ==> forall x | x in list :: IsHost(x))
    ensures Validated(list, hostsOnly, max) == if |list| <= Limit(max) then Some(list) else None
  {
    CanonListSet(list);
    SortedSize(list);
    SortedOfElems(list);
  }

  // ---- state files ----

  // bufio.ScanLines: a final newline ends the last line, a carriage return
  // before a newline is dropped.
  function DropCR(line: string): string {
    if line != "" && line[|line| - 1] == '\r' then line[..|line| - 1] else line
  }

  function ScanLines(content: string): seq<string> {
    var parts := SplitBy(content, {'\n'});
    var lines := if parts[|parts| - 1] == "" then parts[..|parts| - 1] else parts;
    seq(|lines|, i requires 0 <= i < |lines| => DropCR(lines[i]))
  }

  // LoadState: an absent file is an empty list.
  function LoadState(file: Option<string>): seq<string> {
    match file
    case None => []
    case Some(content) => ScanLines(content)
  }

  // The bytes SaveState writes.
  function SaveState(values: seq<string>): string {
    Join(values, '\n') + "\n"
  }

  // Any file: what a newline ends is a line, and so is a rest that is not empty;
  // each is read without a carriage return at its end.
  lemma LinesRead(file: string, ended: seq<string>, rest: string)
    requires file == Join(ended + [rest], '\n') && forall x | x in ended + [rest] :: Free(x, {'\n'})
    ensures LoadState(None) == []
    ensures var lines, read := if rest == "" then ended else ended + [rest], LoadState(Some(file));
            |read| == |lines| && forall i | 0 <= i < |lines| ::
              if lines[i] != "" && lines[i][|lines[i]| - 1] == '\r' then lines[i] == read[i] + "\r" else lines[i] == read[i]
  {
    hide SplitBy, Join, DropCR;
    SplitExactly(file, '\n', ended + [rest]);
    assert (ended + [rest])[..|ended|] == ended;
    forall line ensures if line != "" && line[|line| - 1] == '\r' then line == DropCR(line) + "\r" else line == DropCR(line) {
      CutCR(line);
    }
  }

  lemma CutCR(line: string)
    ensures if line != "" && line[|line| - 1] == '\r' then line == DropCR(line) + "\r" else line == DropCR(line)
  {
  }

  lemma ScanSplit(content: string, lines: seq<string>)
    requires SplitBy(content, {'\n'}) == lines + [""]
    requires forall x | x in lines :: DropCR(x) == x
    ensures ScanLines(content) == lines
  {
    var parts := lines + [""];
    assert parts[|parts| - 1] == "" && parts[..|parts| - 1] == lines;
    forall i | 0 <= i < |lines| ensures DropCR(lines[i]) == lines[i] {
      assert lines[i] in lines;
    }
  }

  // LoadState undoes SaveState on every list but the empty one, which reads
  // back as one empty line.
  lemma ReadBack(list: seq<string>)
    requires forall x | x in list :: Canonical(x)
    ensures LoadState(Some(SaveState(list))) == if list == [] then [""] else list
  {
    if list == [] {
      SplitHead("", '\n', "", {'\n'});
      assert SaveState(list) == "" + ['\n'] + "";
      assert SplitBy("", {'\n'}) == [""];
      ScanSplit(SaveState(list), [""]);
    } else {
      forall x | x in list ensures Free(x, {'\n'}) && DropCR(x) == x {
        CanonicalText(x);
        assert x[|x| - 1] !in SPACES;
      }
      SplitJoin(list, '\n', {'\n'});
      assert SaveState(list) == Join(list, '\n') + ['\n'];
      ScanSplit(SaveState(list), list);
    }
  }

  lemma ReadBackSet(list: seq<string>)
    requires CanonList(list)
    ensures CanonSet(LoadState(Some(SaveState(list)))) == Elems(list)
  {
    ReadBack(list);
    if list == [] {
      assert CanonicalNetwork("") == None;
      assert CanonSet([""]) == {};
    } else {
      CanonListSet(list);
    }
  }

  // The daemon can restart from what it saved exactly when that was not empty.
  lemma SavedValidates(list: seq<string>, hostsOnly: bool, max: int)
    requires CanonList(list) && |list| <= Limit(max) && (hostsOnly ==> forall x | x in list :: IsHost(x))
    ensures Validated(LoadState(Some(SaveState(list))), hostsOnly, max) == if list == [] then None else Some(list)
  {
    ReadBack(list);
    if list == [] {
      assert CanonicalNetwork("") == None;
      assert "" in [""];
    } else {
      ValidatedSelf(list, hostsOnly, max);
    }
  }
}
