// Text operations the daemon takes from Go's standard library, and the
// bytewise order that sort.Strings uses.
module Strings {

  datatype Option<+T> = None | Some(value: T)

  // Unicode White_Space, the class strings.TrimSpace and strings.Fields test.
  predicate IsSpace(c: char) {
    || '\t' <= c <= '\r' || c == ' ' || c == '\U{85}' || c == '\U{A0}' || c == '\U{1680}'
    || '\U{2000}' <= c <= '\U{200A}' || c == '\U{2028}' || c == '\U{2029}' || c == '\U{202F}'
    || c == '\U{205F}' || c == '\U{3000}'
  }

  const SPACES: set<char> := set c: char | IsSpace(c)

  lemma SpacesAre(c: char)
    ensures c in SPACES <==>
      c in ['\t', '\n', '\U{0B}', '\U{0C}', '\r', ' ', '\U{85}', '\U{A0}', '\U{1680}', '\U{2000}', '\U{2001}', '\U{2002}',
            '\U{2003}', '\U{2004}', '\U{2005}', '\U{2006}', '\U{2007}', '\U{2008}', '\U{2009}', '\U{200A}', '\U{2028}',
            '\U{2029}', '\U{202F}', '\U{205F}', '\U{3000}']
  {
  }

  ghost predicate Free(s: string, seps: set<char>) {
    forall i | 0 <= i < |s| :: s[i] !in seps
  }

  function Elems<T>(s: seq<T>): set<T> {
    set x | x in s
  }

  lemma ElemsEmpty<T>(s: seq<T>)
    ensures Elems(s) == {} <==> s == []
  {
    if s != [] {
      assert s[0] in Elems(s);
    }
  }

  // ---- splitting and joining ----

  function SplitBy(s: string, seps: set<char>): (parts: seq<string>)
    ensures |parts| >= 1
  {
    if s == "" then [""]
    else
      var rest := SplitBy(s[1..], seps);
      if s[0] in seps then [""] + rest else [[s[0]] + rest[0]] + rest[1..]
  }

  function Join(parts: seq<string>, sep: char): string {
    if |parts| == 0 then ""
    else if |parts| == 1 then parts[0]
    else parts[0] + [sep] + Join(parts[1..], sep)
  }

  lemma {:induction false} SplitFree(s: string, seps: set<char>)
    requires Free(s, seps)
    ensures SplitBy(s, seps) == [s]
  {
    if s == "" {
    } else {
      SplitFree(s[1..], seps);
      assert [s[0]] + s[1..] == s;
    }
  }

  lemma {:induction false} SplitHead(head: string, sep: char, tail: string, seps: set<char>)
    requires Free(head, seps) && sep in seps
    ensures SplitBy(head + [sep] + tail, seps) == [head] + SplitBy(tail, seps)
  {
    var s := head + [sep] + tail;
    if head == "" {
      assert s[1..] == tail;
    } else {
      SplitHead(head[1..], sep, tail, seps);
      assert s[1..] == head[1..] + [sep] + tail;
      assert [s[0]] + head[1..] == head;
    }
  }

  // Splitting undoes joining, whatever follows the last separator.
  lemma {:induction false} SplitJoin(parts: seq<string>, sep: char, seps: set<char>)
    requires |parts| >= 1 && sep in seps
    requires forall p | p in parts :: Free(p, seps)
    ensures SplitBy(Join(parts, sep), seps) == parts
    ensures SplitBy(Join(parts, sep) + [sep], seps) == parts + [""]
  {
    assert parts[0] in parts;
    if |parts| == 1 {
      SplitFree(parts[0], seps);
      SplitHead(parts[0], sep, "", seps);
      assert parts[0] + [sep] + "" == Join(parts, sep) + [sep];
    } else {
      var rest := parts[1..];
      forall p | p in rest ensures Free(p, seps) { assert p in parts; }
      SplitJoin(rest, sep, seps);
      SplitHead(parts[0], sep, Join(rest, sep), seps);
      SplitHead(parts[0], sep, Join(rest, sep) + [sep], seps);
      assert Join(parts, sep) + [sep] == parts[0] + [sep] + (Join(rest, sep) + [sep]);
    }
  }

  // Splitting at a separator in the middle splits both sides.
  lemma {:induction false} SplitConcat(s: string, sep: char, t: string, seps: set<char>)
    requires sep in seps
    ensures SplitBy(s + [sep] + t, seps) == SplitBy(s, seps) + SplitBy(t, seps)
  {
    var whole := s + [sep] + t;
    if s == "" {
      assert whole[1..] == t;
    } else {
      assert whole[1..] == s[1..] + [sep] + t;
      SplitConcat(s[1..], sep, t, seps);
    }
  }

  // Joining undoes splitting at one character.
  lemma {:induction false} JoinSplit(s: string, sep: char)
    ensures Join(SplitBy(s, {sep}), sep) == s
  {
    if s == "" {
    } else {
      JoinSplit(s[1..], sep);
      var rest := SplitBy(s[1..], {sep});
      if s[0] == sep {
        assert ([""] + rest)[1..] == rest;
        assert s == "" + [sep] + s[1..];
      } else {
        var parts := [[s[0]] + rest[0]] + rest[1..];
        assert parts[1..] == rest[1..];
        assert Join(parts, sep) == [s[0]] + Join(rest, sep);
      }
    }
  }

  lemma {:induction false} PartsFree(s: string, seps: set<char>)
    ensures forall p | p in SplitBy(s, seps) :: Free(p, seps)
  {
    if s == "" {
    } else {
      PartsFree(s[1..], seps);
      var rest := SplitBy(s[1..], seps);
      forall p | p in SplitBy(s, seps) ensures Free(p, seps) {
        assert p in rest || p == "" || p == [s[0]] + rest[0];
        assert rest[0] in rest;
      }
    }
  }

  // Splitting at a character gives the one list of parts without it that joins
  // to the text.
  lemma SplitExactly(s: string, sep: char, parts: seq<string>)
    ensures SplitBy(s, {sep}) == parts <==> parts != [] && Join(parts, sep) == s && forall p | p in parts :: Free(p, {sep})
  {
    hide SplitBy, Free;
    JoinSplit(s, sep);
    PartsFree(s, {sep});
    if parts != [] && Join(parts, sep) == s && forall p | p in parts :: Free(p, {sep}) {
      SplitJoin(parts, sep, {sep});
    }
  }

  lemma {:induction false} JoinConcat(a: seq<string>, b: seq<string>, sep: char)
    requires a != [] && b != []
    ensures Join(a + b, sep) == Join(a, sep) + [sep] + Join(b, sep)
  {
    if |a| == 1 {
      assert (a + b)[1..] == b;
    } else {
      assert (a + b)[1..] == a[1..] + b;
      JoinConcat(a[1..], b, sep);
    }
  }

  function NonEmpty(parts: seq<string>): seq<string> {
    if parts == [] then []
    else (if parts[0] == "" then [] else [parts[0]]) + NonEmpty(parts[1..])
  }

  lemma {:induction false} NonEmptyKeeps(parts: seq<string>)
    requires forall p | p in parts :: p != ""
    ensures NonEmpty(parts) == parts && NonEmpty(parts + [""]) == parts
  {
    if parts == [] {
    } else {
      forall p | p in parts[1..] ensures p != "" { assert p in parts; }
      assert parts[0] in parts;
      NonEmptyKeeps(parts[1..]);
      assert (parts + [""])[1..] == parts[1..] + [""];
    }
  }

  // strings.Fields
  function Fields(s: string): seq<string> {
    NonEmpty(SplitBy(s, SPACES))
  }

  lemma FieldsOfJoin(parts: seq<string>)
    requires forall p | p in parts :: p != "" && Free(p, SPACES)
    ensures Fields(Join(parts, ' ') + "\n") == parts
  {
    if parts == [] {
      assert Join(parts, ' ') + "\n" == "\n";
      assert SplitBy("\n"[1..], SPACES) == [""];
      assert SplitBy("\n", SPACES) == ["", ""];
      assert ["", ""][1..] == [""];
    } else {
      SplitJoinTail(parts, ' ', "\n", SPACES);
      SplitHead("", '\n', "", SPACES);
      assert "" + ['\n'] + "" == "\n";
      assert SplitBy("\n", SPACES) == [""] + SplitBy("", SPACES);
      NonEmptyKeeps(parts);
    }
  }

  lemma FreeEmpty(seps: set<char>)
    ensures Free("", seps)
  {
  }

  lemma {:induction false} SplitJoinTail(parts: seq<string>, sep: char, tail: string, seps: set<char>)
    requires |parts| >= 1 && sep in seps
    requires forall p | p in parts :: Free(p, seps)
    requires tail != "" && tail[0] in seps
    ensures SplitBy(Join(parts, sep) + tail, seps) == parts + SplitBy(tail, seps)[1..]
  {
    hide SplitBy, Free;
    FreeEmpty(seps);
    assert parts[0] in parts;
    assert [tail[0]] + tail[1..] == tail;
    if |parts| == 1 {
      SplitHead(parts[0], tail[0], tail[1..], seps);
      SplitHead("", tail[0], tail[1..], seps);
      assert "" + [tail[0]] + tail[1..] == tail;
      assert parts[0] + [tail[0]] + tail[1..] == Join(parts, sep) + tail;
    } else {
      var rest := parts[1..];
      var j := Join(rest, sep);
      forall p | p in rest ensures Free(p, seps) { assert p in parts; }
      SplitJoinTail(rest, sep, tail, seps);
      SplitHead(parts[0], sep, j + tail, seps);
      assert Join(parts, sep) + tail == parts[0] + [sep] + (j + tail);
      assert [parts[0]] + (rest + SplitBy(tail, seps)[1..]) == parts + SplitBy(tail, seps)[1..];
    }
  }

  // ---- trimming ----

  function TrimLeft(s: string): string {
    if s != "" && s[0] in SPACES then TrimLeft(s[1..]) else s
  }

  function TrimRight(s: string): string {
    if s != "" && s[|s| - 1] in SPACES then TrimRight(s[..|s| - 1]) else s
  }

  // strings.TrimSpace
  function TrimSpace(s: string): string {
    TrimRight(TrimLeft(s))
  }

  ghost predicate AllSpace(s: string) {
    forall i | 0 <= i < |s| :: s[i] in SPACES
  }

  ghost predicate Trimmed(s: string) {
    s == "" || (s[0] !in SPACES && s[|s| - 1] !in SPACES)
  }

  lemma {:induction false} TrimLeftSkips(front: string, s: string)
    requires AllSpace(front)
    ensures TrimLeft(front + s) == TrimLeft(s)
  {
    if front == "" {
      assert front + s == s;
    } else {
      assert (front + s)[1..] == front[1..] + s;
      TrimLeftSkips(front[1..], s);
    }
  }

  lemma {:induction false} TrimRightSkips(s: string, back: string)
    requires AllSpace(back)
    ensures TrimRight(s + back) == TrimRight(s)
  {
    if back == "" {
      assert s + back == s;
    } else {
      assert (s + back)[..|s + back| - 1] == s + back[..|back| - 1];
      TrimRightSkips(s, back[..|back| - 1]);
    }
  }

  lemma TrimOf(front: string, core: string, back: string)
    requires AllSpace(front) && AllSpace(back) && Trimmed(core)
    ensures TrimSpace(front + core + back) == core
  {
    hide SPACES;
    assert front + core + back == front + (core + back);
    TrimLeftSkips(front, core + back);
    if core == "" {
      assert core + back == back == back + "";
      TrimLeftSkips(back, "");
    } else {
      TrimRightSkips(core, back);
    }
  }

  lemma {:induction false} TrimLeftParts(s: string) returns (front: string)
    ensures AllSpace(front) && s == front + TrimLeft(s)
    ensures TrimLeft(s) == "" || TrimLeft(s)[0] !in SPACES
  {
    if s == "" || s[0] !in SPACES {
      front := "";
    } else {
      var rest := TrimLeftParts(s[1..]);
      front := [s[0]] + rest;
    }
  }

  lemma {:induction false} TrimRightParts(s: string) returns (back: string)
    ensures AllSpace(back) && s == TrimRight(s) + back
    ensures TrimRight(s) == "" || TrimRight(s)[|TrimRight(s)| - 1] !in SPACES
  {
    if s == "" || s[|s| - 1] !in SPACES {
      back := "";
    } else {
      var rest := TrimRightParts(s[..|s| - 1]);
      back := rest + [s[|s| - 1]];
    }
  }

  lemma TrimParts(s: string) returns (front: string, back: string)
    ensures AllSpace(front) && AllSpace(back) && Trimmed(TrimSpace(s)) && s == front + TrimSpace(s) + back
  {
    hide SPACES;
    front := TrimLeftParts(s);
    back := TrimRightParts(TrimLeft(s));
    assert TrimSpace(s) != "" ==> TrimLeft(s)[0] == TrimSpace(s)[0];
  }

  // Trimming takes away the outer white space and nothing else.
  lemma TrimExactly(s: string, core: string)
    ensures TrimSpace(s) == core <==>
            Trimmed(core) && exists front, back :: AllSpace(front) && AllSpace(back) && s == front + core + back
  {
    hide SPACES, TrimSpace;
    if TrimSpace(s) == core {
      var front, back := TrimParts(s);
    }
    if front, back :| Trimmed(core) && AllSpace(front) && AllSpace(back) && s == front + core + back {
      TrimOf(front, core, back);
    }
  }

  lemma TrimFree(s: string)
    requires Free(s, SPACES)
    ensures TrimSpace(s) == s
  {
  }

  // ---- the order of sort.Strings ----

  predicate Less(a: string, b: string) {
    if b == "" then false
    else if a == "" then true
    else if a[0] != b[0] then a[0] < b[0]
    else Less(a[1..], b[1..])
  }

  // a and b agree before k; there a has ended, or has the smaller character.
  predicate LessAt(a: string, b: string, k: nat) {
    k <= |a| && k < |b| && a[..k] == b[..k] && (k < |a| ==> a[k] < b[k])
  }

  lemma {:induction false} LessGivesAt(a: string, b: string) returns (k: nat)
    requires Less(a, b)
    ensures LessAt(a, b, k)
  {
    if a == "" || a[0] != b[0] {
      k := 0;
    } else {
      var j := LessGivesAt(a[1..], b[1..]);
      k := j + 1;
      assert a[..k] == [a[0]] + a[1..][..j] && b[..k] == [b[0]] + b[1..][..j];
    }
  }

  lemma {:induction false} AtGivesLess(a: string, b: string, k: nat)
    requires LessAt(a, b, k)
    ensures Less(a, b)
  {
    if k == 0 {
    } else {
      assert a[0] == a[..k][0] == b[..k][0] == b[0];
      assert a[1..][..k - 1] == a[..k][1..] == b[..k][1..] == b[1..][..k - 1];
      AtGivesLess(a[1..], b[1..], k - 1);
    }
  }

  // The order is the lexicographic one.
  lemma LessExactly(a: string, b: string)
    ensures Less(a, b) <==> exists k: nat :: LessAt(a, b, k)
  {
    if Less(a, b) {
      var k := LessGivesAt(a, b);
    }
    if k: nat :| LessAt(a, b, k) {
      AtGivesLess(a, b, k);
    }
  }

  lemma LessIrreflexive(a: string)
    ensures !Less(a, a)
  {
  }

  lemma {:induction false} LessTransitive(a: string, b: string, c: string)
    requires Less(a, b) && Less(b, c)
    ensures Less(a, c)
  {
    if a == "" || a[0] != b[0] || b[0] != c[0] {
    } else {
      LessTransitive(a[1..], b[1..], c[1..]);
    }
  }

  lemma {:induction false} LessTotal(a: string, b: string)
    ensures Less(a, b) || a == b || Less(b, a)
  {
    if a == "" || b == "" || a[0] != b[0] {
    } else {
      LessTotal(a[1..], b[1..]);
      assert a == [a[0]] + a[1..] && b == [b[0]] + b[1..];
    }
  }

  ghost predicate StrictlySorted(s: seq<string>) {
    forall i, j | 0 <= i < j < |s| :: Less(s[i], s[j])
  }

  ghost predicate IsMinimum(m: string, S: set<string>) {
    m in S && forall x | x in S :: x == m || Less(m, x)
  }

  lemma {:induction false} MinimumExists(S: set<string>) returns (m: string)
    requires S != {}
    ensures IsMinimum(m, S)
  {
    var y :| y in S;
    m := y;
    if S != {y} {
      var t := MinimumExists(S - {y});
      LessTotal(y, t);
      if Less(y, t) {
        forall x | x in S ensures x == y || Less(y, x) {
          if x != y && x != t { LessTransitive(y, t, x); }
        }
      } else {
        m := t;
      }
    }
  }

  // The one strictly increasing list of the members of S.
  ghost function SortedOf(S: set<string>): (r: seq<string>)
    ensures StrictlySorted(r)
    ensures forall x :: x in r <==> x in S
    ensures Elems(r) == S && |r| == |S|
  {
    if S == {} then []
    else
      assert exists m :: IsMinimum(m, S) by { var m := MinimumExists(S); }
      var m :| IsMinimum(m, S);
      [m] + SortedOf(S - {m})
  }

  lemma {:induction false} SortedUnique(a: seq<string>, b: seq<string>)
    requires StrictlySorted(a) && StrictlySorted(b) && Elems(a) == Elems(b)
    ensures a == b
  {
    assert a == [] ==> Elems(a) == {};
    assert b == [] ==> Elems(b) == {};
    assert a != [] ==> a[0] in Elems(b);
    assert b != [] ==> b[0] in Elems(a);
    if a == [] {
    } else {
      SortedHead(a, b[0]);
      SortedHead(b, a[0]);
      SortedTail(a);
      SortedTail(b);
      SortedUnique(a[1..], b[1..]);
      assert a == [a[0]] + a[1..] && b == [b[0]] + b[1..];
    }
  }

  lemma SortedHead(a: seq<string>, x: string)
    requires StrictlySorted(a) && a != [] && x in Elems(a)
    ensures x == a[0] || (Less(a[0], x) && !Less(x, a[0]))
  {
    if x != a[0] && Less(x, a[0]) {
      LessTransitive(x, a[0], x);
      LessIrreflexive(x);
    }
  }

  lemma SortedTail(a: seq<string>)
    requires StrictlySorted(a) && a != []
    ensures StrictlySorted(a[1..]) && Elems(a[1..]) == Elems(a) - {a[0]}
  {
    forall i | 1 <= i < |a| ensures a[i] != a[0] { LessIrreflexive(a[0]); }
    forall x | x in Elems(a) && x != a[0] ensures x in a[1..] {
      var i :| 0 <= i < |a| && a[i] == x;
      assert a[1..][i - 1] == x;
    }
  }

  // A strictly increasing list has no repeats.
  lemma {:induction false} SortedSize(a: seq<string>)
    requires StrictlySorted(a)
    ensures |Elems(a)| == |a|
  {
    SortedUnique(a, SortedOf(Elems(a)));
  }

  lemma SortedOfElems(a: seq<string>)
    requires StrictlySorted(a)
    ensures SortedOf(Elems(a)) == a
  {
    SortedUnique(a, SortedOf(Elems(a)));
  }

  // sort.Strings, as insertion into a growing sorted list.
  function InsertSorted(x: string, a: seq<string>): seq<string> {
    if a == [] || Less(x, a[0]) then [x] + a else [a[0]] + InsertSorted(x, a[1..])
  }

  lemma {:induction false} InsertSortedCorrect(x: string, a: seq<string>)
    requires StrictlySorted(a) && x !in a
    ensures StrictlySorted(InsertSorted(x, a))
    ensures Elems(InsertSorted(x, a)) == Elems(a) + {x}
  {
    if a == [] {
    } else if Less(x, a[0]) {
      forall i | 0 <= i < |a| ensures Less(x, a[i]) {
        if i > 0 { LessTransitive(x, a[0], a[i]); }
      }
    } else {
      LessTotal(x, a[0]);
      SortedTail(a);
      InsertSortedCorrect(x, a[1..]);
      var r := InsertSorted(x, a[1..]);
      assert Elems(r) == Elems(a[1..]) + {x};
      forall i | 0 <= i < |r| ensures Less(a[0], r[i]) {
        assert r[i] in Elems(r);
      }
      assert Elems([a[0]] + r) == {a[0]} + Elems(r);
    }
  }
}
