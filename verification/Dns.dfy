// internal/pbr/dns_proxy.go: which names a DNS answer makes trusted, and which
// of its addresses are learned.
module Dns {
  import opened Strings
  import opened Networks
  import opened NetworkSets

  datatype ProxyConfig = ProxyConfig(trustedSuffixes: seq<string>, servicePrefixes: seq<string>)

  // A resource record; address is the text net.IP prints.
  datatype Record = CName(owner: string, target: string) | Address(owner: string, address: string) | OtherRecord

  datatype Message = Message(question: seq<string>, answer: seq<Record>, extra: seq<Record>)

  // ---- names ----

  function ToLower(s: string): string {
    seq(|s|, i requires 0 <= i < |s| => if 'A' <= s[i] <= 'Z' then (s[i] as int + 32) as char else s[i])
  }

  predicate HasPrefix(s: string, prefix: string) {
    |s| >= |prefix| && s[..|prefix|] == prefix
  }

  predicate HasSuffix(s: string, suffix: string) {
    |s| >= |suffix| && s[|s| - |suffix|..] == suffix
  }

  predicate PartAt(s: string, part: string, i: nat) {
    i + |part| <= |s| && s[i..i + |part|] == part
  }

  predicate Contains(s: string, part: string) {
    exists i | 0 <= i <= |s| :: PartAt(s, part, i)
  }

  function CanonicalName(name: string): string {
    var s := ToLower(TrimSpace(name));
    if HasSuffix(s, ".") then s[..|s| - 1] else s
  }

  function Labels(name: string): seq<string> {
    SplitBy(name, {'.'})
  }

  const AMAZON := "amazonaws.com"

  predicate IsNetflixName(config: ProxyConfig, name: string) {
    || (exists suffix | suffix in config.trustedSuffixes ::
          name == CanonicalName(suffix) || HasSuffix(name, "." + CanonicalName(suffix)))
    || (&& HasSuffix(name, "." + AMAZON) && Contains(name, ".elb.")
        && exists prefix | prefix in config.servicePrefixes :: HasPrefix(Labels(name)[0], ToLower(prefix)))
  }

  // ---- names by labels ----

  ghost predicate EndsIn(labels: seq<string>, tail: seq<string>) {
    |labels| >= |tail| && labels[|labels| - |tail|..] == tail
  }

  lemma LabelsInjective(s: string, t: string)
    requires Labels(s) == Labels(t)
    ensures s == t
  {
    JoinSplit(s, '.');
    JoinSplit(t, '.');
  }

  lemma SuffixGivesLabels(name: string, suffix: string)
    requires HasSuffix(name, "." + suffix)
    ensures |Labels(name)| > |Labels(suffix)| && EndsIn(Labels(name), Labels(suffix))
  {
    var front := name[..|name| - |suffix| - 1];
    assert name == front + name[|front|..] && "." + suffix == ['.'] + suffix;
    assert name == front + ['.'] + suffix;
    SplitConcat(front, '.', suffix, {'.'});
  }

  lemma LabelsGiveSuffix(name: string, suffix: string)
    requires |Labels(name)| > |Labels(suffix)| && EndsIn(Labels(name), Labels(suffix))
    ensures HasSuffix(name, "." + suffix)
  {
    var l, m := Labels(name), Labels(suffix);
    var front := l[..|l| - |m|];
    assert l == front + m;
    JoinConcat(front, m, '.');
    JoinSplit(name, '.');
    JoinSplit(suffix, '.');
    var f := Join(front, '.');
    assert name == f + ['.'] + suffix;
    assert name[|f|..] == ['.'] + suffix == "." + suffix;
  }

  // A suffix test with a leading dot compares whole labels.
  lemma SuffixIsLabels(name: string, suffix: string)
    ensures HasSuffix(name, "." + suffix) <==>
            |Labels(name)| > |Labels(suffix)| && EndsIn(Labels(name), Labels(suffix))
  {
    if HasSuffix(name, "." + suffix) {
      SuffixGivesLabels(name, suffix);
    } else if |Labels(name)| > |Labels(suffix)| && EndsIn(Labels(name), Labels(suffix)) {
      LabelsGiveSuffix(name, suffix);
    }
  }

  // word is one of the labels strictly between the first and the last.
  ghost predicate InnerLabel(name: string, word: string) {
    exists i | 0 < i < |Labels(name)| - 1 :: Labels(name)[i] == word
  }

  lemma PartGivesLabel(name: string, word: string, i: nat)
    requires Free(word, {'.'}) && PartAt(name, "." + word + ".", i)
    ensures InnerLabel(name, word)
  {
    var part := "." + word + ".";
    var front, back := name[..i], name[i + |part|..];
    assert name == front + name[i..i + |part|] + back;
    assert name == front + ['.'] + (word + ['.'] + back);
    SplitConcat(front, '.', word + ['.'] + back, {'.'});
    SplitHead(word, '.', back, {'.'});
    assert Labels(name)[|Labels(front)|] == word;
  }

  lemma LabelGivesPart(name: string, word: string, i: nat)
    requires 0 < i < |Labels(name)| - 1 && Labels(name)[i] == word
    ensures Contains(name, "." + word + ".")
  {
    var l := Labels(name);
    var front, back := l[..i], l[i + 1..];
    assert l == front + ([word] + back);
    JoinConcat(front, [word] + back, '.');
    JoinConcat([word], back, '.');
    JoinSplit(name, '.');
    var f, b := Join(front, '.'), Join(back, '.');
    assert name == f + ['.'] + (word + ['.'] + b);
    assert PartAt(name, "." + word + ".", |f|);
  }

  lemma InnerLabelIff(name: string, word: string)
    requires Free(word, {'.'})
    ensures Contains(name, "." + word + ".") <==> InnerLabel(name, word)
  {
    if Contains(name, "." + word + ".") {
      var i: nat :| i <= |name| && PartAt(name, "." + word + ".", i);
      PartGivesLabel(name, word, i);
    } else if InnerLabel(name, word) {
      var i :| 0 < i < |Labels(name)| - 1 && Labels(name)[i] == word;
      LabelGivesPart(name, word, i);
    }
  }

  lemma SuffixByLabels(name: string, suffix: string)
    ensures (name == suffix || HasSuffix(name, "." + suffix)) <==> EndsIn(Labels(name), Labels(suffix))
  {
    SuffixIsLabels(name, suffix);
    if |Labels(name)| == |Labels(suffix)| && EndsIn(Labels(name), Labels(suffix)) {
      assert Labels(name)[0..] == Labels(name);
      LabelsInjective(name, suffix);
    }
  }

  lemma TwoLabels(first: string, second: string)
    requires Free(first, {'.'}) && Free(second, {'.'})
    ensures Labels(first + ['.'] + second) == [first, second]
  {
    hide SplitBy, Free;
    SplitFree(first, {'.'});
    SplitFree(second, {'.'});
    SplitConcat(first, '.', second, {'.'});
  }

  lemma AmazonLabels()
    ensures Labels(AMAZON) == ["amazonaws", "com"]
  {
    hide Labels;
    TwoLabels("amazonaws", "com");
    assert AMAZON == "amazonaws" + ['.'] + "com";
  }

  lemma AmazonByLabels(name: string)
    ensures HasSuffix(name, "." + AMAZON) && Contains(name, ".elb.") <==>
            |Labels(name)| > 2 && EndsIn(Labels(name), ["amazonaws", "com"]) && InnerLabel(name, "elb")
  {
    hide HasSuffix, Labels, Contains, InnerLabel;
    AmazonLabels();
    SuffixIsLabels(name, AMAZON);
    InnerLabelIff(name, "elb");
    assert "." + "elb" + "." == ".elb.";
  }

  // The trust test on whole labels: a trusted suffix's labels end the name's,
  // or an Amazon load balancer's first label carries a service prefix.
  lemma NetflixByLabels(config: ProxyConfig, name: string)
    ensures IsNetflixName(config, name) <==>
      || (exists suffix | suffix in config.trustedSuffixes :: EndsIn(Labels(name), Labels(CanonicalName(suffix))))
      || (&& |Labels(name)| > 2 && EndsIn(Labels(name), ["amazonaws", "com"]) && InnerLabel(name, "elb")
          && exists prefix | prefix in config.servicePrefixes :: HasPrefix(Labels(name)[0], ToLower(prefix)))
  {
    hide HasSuffix, Labels, EndsIn, CanonicalName, Contains, InnerLabel;
    forall suffix | suffix in config.trustedSuffixes
      ensures (name == CanonicalName(suffix) || HasSuffix(name, "." + CanonicalName(suffix))) <==>
              EndsIn(Labels(name), Labels(CanonicalName(suffix)))
    {
      SuffixByLabels(name, CanonicalName(suffix));
    }
    AmazonByLabels(name);
  }

  // ---- the CNAME closure ----

  ghost predicate Edge(records: seq<Record>, a: string, b: string) {
    exists r | r in records :: r.CName? && CanonicalName(r.owner) == a && CanonicalName(r.target) == b
  }

  ghost predicate Chain(records: seq<Record>, path: seq<string>) {
    |path| > 0 && forall i | 0 < i < |path| :: Edge(records, path[i - 1], path[i])
  }

  // Some chain of CNAME records leads from a starting name to this one.
  ghost predicate Reaches(records: seq<Record>, start: set<string>, name: string) {
    exists path :: Chain(records, path) && path[0] in start && path[|path| - 1] == name
  }

  ghost predicate Closed(records: seq<Record>, names: set<string>) {
    forall r | r in records :: r.CName? && CanonicalName(r.owner) in names ==> CanonicalName(r.target) in names
  }

  function Targets(records: seq<Record>): set<string> {
    set r | r in records && r.CName? :: CanonicalName(r.target)
  }

  ghost function Closure(records: seq<Record>, start: set<string>): set<string> {
    start + set n | n in Targets(records) && Reaches(records, start, n)
  }

  lemma ClosureIsReach(records: seq<Record>, start: set<string>, name: string)
    ensures name in Closure(records, start) <==> Reaches(records, start, name)
  {
    if name in start {
      assert Chain(records, [name]);
    } else if Reaches(records, start, name) {
      var path :| Chain(records, path) && path[0] in start && path[|path| - 1] == name;
      assert Edge(records, path[|path| - 2], path[|path| - 1]);
    }
  }

  lemma ReachStep(records: seq<Record>, start: set<string>, a: string, b: string)
    requires Reaches(records, start, a) && Edge(records, a, b)
    ensures Reaches(records, start, b)
  {
    hide Edge;
    var path :| Chain(records, path) && path[0] in start && path[|path| - 1] == a;
    assert Chain(records, path + [b]);
  }

  lemma ClosureIsClosed(records: seq<Record>, start: set<string>)
    ensures Closed(records, Closure(records, start))
  {
    forall r | r in records && r.CName? && CanonicalName(r.owner) in Closure(records, start)
      ensures CanonicalName(r.target) in Closure(records, start)
    {
      ClosureIsReach(records, start, CanonicalName(r.owner));
      ReachStep(records, start, CanonicalName(r.owner), CanonicalName(r.target));
    }
  }

  lemma {:induction false} ChainStaysIn(records: seq<Record>, names: set<string>, path: seq<string>, i: nat)
    requires Closed(records, names) && Chain(records, path) && path[0] in names && i < |path|
    ensures path[i] in names
  {
    if i == 0 {
    } else {
      ChainStaysIn(records, names, path, i - 1);
      assert Edge(records, path[i - 1], path[i]);
    }
  }

  // The least set that holds the starting names and follows every CNAME record.
  lemma ClosureIsLeast(records: seq<Record>, start: set<string>, names: set<string>)
    requires start <= names && Closed(records, names)
    ensures Closure(records, start) <= names
  {
    forall n | n in Closure(records, start) ensures n in names {
      ClosureIsReach(records, start, n);
      var path :| Chain(records, path) && path[0] in start && path[|path| - 1] == n;
      ChainStaysIn(records, names, path, |path| - 1);
    }
  }

  // Record order and repetition do not matter.
  lemma ClosureByContents(records: seq<Record>, others: seq<Record>, start: set<string>)
    requires Elems(records) == Elems(others)
    ensures Closure(records, start) == Closure(others, start)
  {
    assert forall r :: r in records <==> r in others by {
      assert forall r :: (r in records <==> r in Elems(records)) && (r in others <==> r in Elems(others));
    }
    ClosureIsClosed(records, start);
    ClosureIsClosed(others, start);
    assert Closed(records, Closure(others, start)) && Closed(others, Closure(records, start));
    ClosureIsLeast(records, start, Closure(others, start));
    ClosureIsLeast(others, start, Closure(records, start));
  }

  // ---- inspect ----

  function Records(message: Message): seq<Record> {
    message.answer + message.extra
  }

  function NetflixQuestions(config: ProxyConfig, message: Message): set<string> {
    set q | q in message.question && IsNetflixName(config, CanonicalName(q)) :: CanonicalName(q)
  }

  function StartSet(config: ProxyConfig, aliases: set<string>, message: Message): set<string> {
    aliases + NetflixQuestions(config, message)
  }

  ghost function Trusted(config: ProxyConfig, aliases: set<string>, message: Message): set<string> {
    Closure(Records(message), StartSet(config, aliases, message))
  }

  // Only names a CNAME record added are remembered.
  ghost function AliasesAfter(config: ProxyConfig, aliases: set<string>, message: Message): set<string> {
    aliases + (Trusted(config, aliases, message) - StartSet(config, aliases, message))
  }

  // The address texts of the records whose owner is trusted.
  function Addresses(records: seq<Record>, trusted: set<string>): seq<string> {
    if records == [] then []
    else
      (if records[0].Address? && CanonicalName(records[0].owner) in trusted then [records[0].address] else [])
      + Addresses(records[1..], trusted)
  }

  ghost function Extracted(message: Message, trusted: set<string>): seq<string> {
    Merged([Addresses(Records(message), trusted)])
  }

  lemma {:induction false} AddressesMeaning(records: seq<Record>, trusted: set<string>, a: string)
    ensures a in Addresses(records, trusted) <==>
            exists r | r in records :: r.Address? && CanonicalName(r.owner) in trusted && r.address == a
  {
    if records == [] {
    } else {
      AddressesMeaning(records[1..], trusted, a);
      assert forall r | r in records :: r == records[0] || r in records[1..];
    }
  }

  // inspect returns exactly the public addresses of trusted owners.
  lemma ExtractedMeaning(message: Message, trusted: set<string>, x: string)
    ensures CanonList(Extracted(message, trusted))
    ensures x in Extracted(message, trusted) <==>
            exists r | r in Records(message) ::
              r.Address? && CanonicalName(r.owner) in trusted && CanonicalNetwork(r.address) == Some(x)
  {
    var values := Addresses(Records(message), trusted);
    MergedMeaning([values]);
    if x in Extracted(message, trusted) {
      var g, v :| g in [values] && v in g && CanonicalNetwork(v) == Some(x);
      AddressesMeaning(Records(message), trusted, v);
    }
    if r :| r in Records(message) && r.Address? && CanonicalName(r.owner) in trusted && CanonicalNetwork(r.address) == Some(x) {
      AddressesMeaning(Records(message), trusted, r.address);
      assert values in [values];
    }
  }

  class Learner {
    const config: ProxyConfig
    var aliases: set<string>

    constructor (config: ProxyConfig)
      ensures this.config == config && aliases == {}
    {
      this.config := config;
      aliases := {};
    }

    method StartNames(message: Message) returns (trusted: set<string>)
      ensures trusted == StartSet(config, aliases, message)
    {
      hide CanonicalName, IsNetflixName;
      trusted := aliases;
      for i := 0 to |message.question|
        invariant trusted == aliases + NetflixQuestions(config, Message(message.question[..i], [], []))
      {
        var name := CanonicalName(message.question[i]);
        if IsNetflixName(config, name) {
          trusted := trusted + {name};
        }
        assert message.question[..i + 1] == message.question[..i] + [message.question[i]];
      }
      assert message.question[..|message.question|] == message.question;
    }

    // One pass over the records; trusted grows while the pass reads it.
    method OnePass(records: seq<Record>, ghost start: set<string>, before: set<string>)
      returns (trusted: set<string>, changed: bool)
      requires start <= before <= Closure(records, start)
      modifies this
      ensures before <= trusted <= Closure(records, start)
      ensures aliases == old(aliases) + (trusted - before)
      ensures trusted - before <= Targets(records)
      ensures changed <==> trusted != before
      ensures !changed ==> Closed(records, trusted)
    {
      hide CanonicalName, Closure;
      trusted, changed := before, false;
      for i := 0 to |records|
        invariant before <= trusted <= Closure(records, start)
        invariant aliases == old(aliases) + (trusted - before)
        invariant trusted - before <= Targets(records)
        invariant changed <==> trusted != before
        invariant !changed ==> Closed(records[..i], trusted)
      {
        var record := records[i];
        assert record in records;
        if record.CName? {
          var owner, target := CanonicalName(record.owner), CanonicalName(record.target);
          if owner in trusted {
            if target !in trusted {
              ClosureIsClosed(records, start);
              trusted := trusted + {target};
              aliases := aliases + {target};
              changed := true;
            }
          }
        }
        assert records[..i + 1] == records[..i] + [record];
      }
      assert records[..|records|] == records;
    }

    // The loop that repeats until a pass changes nothing.
    method Close(records: seq<Record>, start: set<string>) returns (trusted: set<string>)
      modifies this
      ensures trusted == Closure(records, start)
      ensures aliases == old(aliases) + (trusted - start)
    {
      hide CanonicalName, Targets, Closed;
      assert start <= Closure(records, start);
      hide Closure;
      trusted := start;
      var changed := true;
      while changed
        invariant start <= trusted <= Closure(records, start)
        invariant aliases == old(aliases) + (trusted - start)
        invariant !changed ==> Closed(records, trusted)
        decreases |Targets(records) - trusted|, changed
      {
        ghost var before := trusted;
        trusted, changed := OnePass(records, start, trusted);
        if changed {
          assert trusted == before + (trusted - before) && before == before + {};
          assert trusted - before != {};
          ghost var extra :| extra in trusted - before;
          SubsetSize(Targets(records) - trusted, Targets(records) - before);
          assert extra in Targets(records) - before && extra !in Targets(records) - trusted;
        }
      }
      ClosureIsLeast(records, start, trusted);
    }

    method Inspect(message: Message) returns (networks: seq<string>)
      modifies this
      ensures aliases == AliasesAfter(config, old(aliases), message)
      ensures networks == Extracted(message, Trusted(config, old(aliases), message))
    {
      hide CanonicalName, StartSet, Closure, Merged, Addresses;
      var start := StartNames(message);
      var records := message.answer + message.extra;
      var trusted := Close(records, start);
      var values := Collect(records, trusted);
      networks := Merge([values]);
    }

    method Collect(records: seq<Record>, trusted: set<string>) returns (values: seq<string>)
      ensures values == Addresses(records, trusted)
    {
      hide CanonicalName;
      values := [];
      for i := 0 to |records|
        invariant values + Addresses(records[i..], trusted) == Addresses(records, trusted)
      {
        if records[i].Address? && CanonicalName(records[i].owner) in trusted {
          values := values + [records[i].address];
        }
        assert records[i..][1..] == records[i + 1..];
      }
    }
  }

  // ---- histories ----

  ghost function AliasRun(config: ProxyConfig, messages: seq<Message>): set<string> {
    if messages == [] then {}
    else AliasesAfter(config, AliasRun(config, messages[..|messages| - 1]), messages[|messages| - 1])
  }

  function AllRecords(messages: seq<Message>): seq<Record> {
    if messages == [] then []
    else AllRecords(messages[..|messages| - 1]) + Records(messages[|messages| - 1])
  }

  function AllQuestions(config: ProxyConfig, messages: seq<Message>): set<string> {
    if messages == [] then {}
    else AllQuestions(config, messages[..|messages| - 1]) + NetflixQuestions(config, messages[|messages| - 1])
  }

  lemma ReachMonotone(records: seq<Record>, more: seq<Record>, start: set<string>, wider: set<string>, name: string)
    requires Elems(records) <= Elems(more) && start <= wider && Reaches(records, start, name)
    ensures Reaches(more, wider, name)
  {
    var path :| Chain(records, path) && path[0] in start && path[|path| - 1] == name;
    forall i | 0 < i < |path| ensures Edge(more, path[i - 1], path[i]) {
      assert Edge(records, path[i - 1], path[i]);
      var r :| r in records && r.CName? && CanonicalName(r.owner) == path[i - 1] && CanonicalName(r.target) == path[i];
      assert r in Elems(records);
    }
    assert Chain(more, path);
  }

  lemma ReachTransitive(records: seq<Record>, start: set<string>, middle: set<string>, name: string)
    requires Reaches(records, middle, name) && forall m | m in middle :: Reaches(records, start, m)
    ensures Reaches(records, start, name)
  {
    var tail :| Chain(records, tail) && tail[0] in middle && tail[|tail| - 1] == name;
    var head :| Chain(records, head) && head[0] in start && head[|head| - 1] == tail[0];
    var path := head + tail[1..];
    forall i | 0 < i < |path| ensures Edge(records, path[i - 1], path[i]) {
      if i >= |head| {
        assert Edge(records, tail[i - |head|], tail[i - |head| + 1]);
      }
    }
    assert Chain(records, path);
  }

  // Every remembered alias goes back, through CNAME records of processed
  // messages, to a question name that isNetflixName accepted.
  lemma {:induction false} AliasProvenance(config: ProxyConfig, messages: seq<Message>, name: string)
    requires name in AliasRun(config, messages)
    ensures Reaches(AllRecords(messages), AllQuestions(config, messages), name)
  {
    var front, last := messages[..|messages| - 1], messages[|messages| - 1];
    var aliases := AliasRun(config, front);
    var all, questions := AllRecords(messages), AllQuestions(config, messages);
    forall m | m in StartSet(config, aliases, last) ensures Reaches(all, questions, m) {
      if m in aliases {
        AliasProvenance(config, front, m);
        ReachMonotone(AllRecords(front), all, AllQuestions(config, front), questions, m);
      } else {
        assert Chain(all, [m]);
      }
    }
    if name !in aliases {
      ClosureIsReach(Records(last), StartSet(config, aliases, last), name);
      ReachMonotone(Records(last), all, StartSet(config, aliases, last), StartSet(config, aliases, last), name);
      ReachTransitive(all, questions, StartSet(config, aliases, last), name);
    }
  }

  // Aliases only grow, and inspecting the same message again trusts the same
  // names, returns the same addresses and remembers nothing new.
  lemma InspectAgain(config: ProxyConfig, aliases: set<string>, message: Message)
    ensures var after := AliasesAfter(config, aliases, message);
            && aliases <= after
            && Trusted(config, after, message) == Trusted(config, aliases, message)
            && AliasesAfter(config, after, message) == after
            && Extracted(message, Trusted(config, after, message)) == Extracted(message, Trusted(config, aliases, message))
  {
    var after := AliasesAfter(config, aliases, message);
    var t := Trusted(config, aliases, message);
    ClosureIsClosed(Records(message), StartSet(config, aliases, message));
    assert StartSet(config, after, message) == t;
    ClosureIsLeast(Records(message), t, t);
  }
}
