// internal/pbr/dns_proxy.go: what inspect trusts and returns, in terms of the
// message as it arrived: spelled names, its question and its two sections.
module Inspection {
  import opened Strings
  import opened Networks
  import opened NetworkSets
  import opened Dns

  // ---- spellings of a name ----

  predicate LowerChar(a: char, b: char) {
    if 'A' <= a <= 'Z' then b as int - 'a' as int == a as int - 'A' as int else b == a
  }

  // b is a with its ASCII capitals made small.
  ghost predicate Lowered(a: string, b: string) {
    |a| == |b| && forall i | 0 <= i < |a| :: LowerChar(a[i], b[i])
  }

  predicate EndsInDot(s: string) {
    s != "" && s[|s| - 1] == '.'
  }

  ghost predicate SpelledAs(name: string, core: string, front: string, middle: string, dot: string, back: string) {
    && AllSpace(front) && AllSpace(back) && dot in {"", "."} && Trimmed(middle + dot)
    && name == front + (middle + dot) + back
    && Lowered(middle, core) && (dot == "" ==> !EndsInDot(core))
  }

  // name is core in any letter case, with or without outer white space and one
  // final dot.
  ghost predicate Spells(name: string, core: string) {
    exists front, middle, dot, back :: SpelledAs(name, core, front, middle, dot, back)
  }

  lemma LowerExactly(a: string, b: string)
    ensures ToLower(a) == b <==> Lowered(a, b)
  {
    if Lowered(a, b) {
      forall i | 0 <= i < |a| ensures ToLower(a)[i] == b[i] {
        assert LowerChar(a[i], b[i]);
      }
    }
  }

  lemma LowerDot(s: string)
    ensures |ToLower(s)| == |s| && (EndsInDot(ToLower(s)) <==> EndsInDot(s))
    ensures EndsInDot(s) ==> ToLower(s[..|s| - 1]) == ToLower(s)[..|s| - 1]
  {
  }

  lemma DotSuffix(s: string)
    ensures HasSuffix(s, ".") <==> EndsInDot(s)
  {
    assert s != "" ==> s[|s| - 1..] == [s[|s| - 1]];
    assert "." == ['.'];
  }

  lemma SpelledOut(name: string)
    ensures Spells(name, CanonicalName(name))
  {
    hide TrimSpace, ToLower, Trimmed, HasSuffix;
    var front, back := TrimParts(name);
    var t := TrimSpace(name);
    var core := CanonicalName(name);
    LowerDot(t);
    DotSuffix(ToLower(t));
    if EndsInDot(t) {
      var middle := t[..|t| - 1];
      assert middle + "." == t;
      LowerExactly(middle, core);
      assert SpelledAs(name, core, front, middle, ".", back);
    } else {
      LowerExactly(t, core);
      assert t + "" == t;
      LowerDot(t);
      assert SpelledAs(name, core, front, t, "", back);
    }
  }

  lemma SpelledBack(name: string, core: string, front: string, middle: string, dot: string, back: string)
    requires SpelledAs(name, core, front, middle, dot, back)
    ensures CanonicalName(name) == core
  {
    hide TrimSpace, ToLower, Trimmed, HasSuffix;
    TrimOf(front, middle + dot, back);
    LowerExactly(middle, core);
    LowerDot(middle + dot);
    LowerDot(middle);
    DotSuffix(ToLower(middle + dot));
    if dot == "" {
      assert middle + dot == middle;
    } else {
      assert (middle + dot)[..|middle + dot| - 1] == middle;
    }
  }

  // The canonical name is the one name that the text spells.
  lemma CanonicalNameExactly(name: string, core: string)
    ensures CanonicalName(name) == core <==> Spells(name, core)
  {
    hide CanonicalName, SpelledAs;
    if CanonicalName(name) == core {
      SpelledOut(name);
    }
    if front, middle, dot, back :| SpelledAs(name, core, front, middle, dot, back) {
      SpelledBack(name, core, front, middle, dot, back);
    }
  }

  // A small name without outer white space and final dot is its own.
  lemma PlainName(name: string)
    requires Trimmed(name) && !EndsInDot(name) && forall i | 0 <= i < |name| :: !('A' <= name[i] <= 'Z')
    ensures CanonicalName(name) == name
  {
    assert name + "" == name && "" + name + "" == name;
    assert SpelledAs(name, name, "", name, "", "");
    CanonicalNameExactly(name, name);
  }

  // Two texts that spell one name.
  ghost predicate SameName(a: string, b: string) {
    exists core :: Spells(a, core) && Spells(b, core)
  }

  lemma SameNameExactly(a: string, b: string)
    ensures SameName(a, b) <==> CanonicalName(a) == CanonicalName(b)
  {
    hide CanonicalName, Spells;
    CanonicalNameExactly(a, CanonicalName(a));
    CanonicalNameExactly(b, CanonicalName(b));
    if core :| Spells(a, core) && Spells(b, core) {
      CanonicalNameExactly(a, core);
      CanonicalNameExactly(b, core);
    }
  }

  // ---- which names are accepted ----

  ghost predicate UnderSuffix(config: ProxyConfig, name: string) {
    exists suffix, core :: suffix in config.trustedSuffixes && Spells(suffix, core) && EndsIn(Labels(name), Labels(core))
  }

  ghost predicate AmazonBalancer(config: ProxyConfig, name: string) {
    && |Labels(name)| > 2 && EndsIn(Labels(name), ["amazonaws", "com"]) && InnerLabel(name, "elb")
    && exists prefix, low :: prefix in config.servicePrefixes && Lowered(prefix, low) && low <= Labels(name)[0]
  }

  lemma SomeLabel(name: string)
    ensures |Labels(name)| >= 1
  {
  }

  lemma PrefixExactly(s: string, prefix: string)
    ensures HasPrefix(s, prefix) <==> prefix <= s
  {
  }

  lemma UnderSuffixExactly(config: ProxyConfig, name: string)
    ensures UnderSuffix(config, name) <==>
            exists suffix | suffix in config.trustedSuffixes :: EndsIn(Labels(name), Labels(CanonicalName(suffix)))
  {
    hide Labels, EndsIn, CanonicalName, Spells;
    forall suffix, core ensures Spells(suffix, core) <==> CanonicalName(suffix) == core {
      CanonicalNameExactly(suffix, core);
    }
    if suffix :| suffix in config.trustedSuffixes && EndsIn(Labels(name), Labels(CanonicalName(suffix))) {
      assert Spells(suffix, CanonicalName(suffix));
    }
  }

  lemma ServicePrefixExactly(config: ProxyConfig, first: string)
    ensures (exists prefix, low :: prefix in config.servicePrefixes && Lowered(prefix, low) && low <= first) <==>
            exists prefix | prefix in config.servicePrefixes :: HasPrefix(first, ToLower(prefix))
  {
    hide Lowered, ToLower, HasPrefix;
    forall prefix, low ensures Lowered(prefix, low) <==> ToLower(prefix) == low {
      LowerExactly(prefix, low);
    }
    forall prefix ensures HasPrefix(first, prefix) <==> prefix <= first {
      PrefixExactly(first, prefix);
    }
    if prefix :| prefix in config.servicePrefixes && HasPrefix(first, ToLower(prefix)) {
      assert Lowered(prefix, ToLower(prefix));
    }
  }

  // A name is accepted exactly if its labels end in those of a trusted suffix,
  // or it is an Amazon load balancer whose first label starts with a service
  // prefix in any letter case.
  lemma NetflixExactly(config: ProxyConfig, name: string)
    ensures IsNetflixName(config, name) <==> UnderSuffix(config, name) || AmazonBalancer(config, name)
  {
    hide Labels, EndsIn, InnerLabel, CanonicalName, ToLower, HasPrefix, UnderSuffix, IsNetflixName, Lowered;
    SomeLabel(name);
    NetflixByLabels(config, name);
    UnderSuffixExactly(config, name);
    ServicePrefixExactly(config, Labels(name)[0]);
  }

  // ---- which names a message makes trusted ----

  // An old alias, or an accepted name that a question spells.
  ghost predicate Begins(config: ProxyConfig, aliases: set<string>, message: Message, name: string) {
    name in aliases || (IsNetflixName(config, name) && exists q | q in message.question :: Spells(q, name))
  }

  ghost predicate InMessage(message: Message, r: Record) {
    r in message.answer || r in message.extra
  }

  // A CNAME record of either section leads from a to b.
  ghost predicate Leads(message: Message, a: string, b: string) {
    exists r :: InMessage(message, r) && r.CName? && Spells(r.owner, a) && Spells(r.target, b)
  }

  ghost predicate LeadsAlong(message: Message, path: seq<string>) {
    path != [] && forall i | 0 < i < |path| :: Leads(message, path[i - 1], path[i])
  }

  lemma BeginsExactly(config: ProxyConfig, aliases: set<string>, message: Message, name: string)
    ensures name in StartSet(config, aliases, message) <==> Begins(config, aliases, message, name)
  {
    hide CanonicalName, Spells, IsNetflixName;
    forall q ensures Spells(q, name) <==> CanonicalName(q) == name {
      CanonicalNameExactly(q, name);
    }
  }

  lemma LeadsExactly(message: Message, a: string, b: string)
    ensures Edge(Records(message), a, b) <==> Leads(message, a, b)
  {
    hide CanonicalName, Spells;
    forall n, c ensures Spells(n, c) <==> CanonicalName(n) == c {
      CanonicalNameExactly(n, c);
    }
    assert forall r :: r in Records(message) <==> InMessage(message, r);
  }

  // inspect trusts exactly the names to which a chain of the message's CNAME
  // records leads from an old alias or an accepted question.
  lemma TrustedExactly(config: ProxyConfig, aliases: set<string>, message: Message, name: string)
    ensures name in Trusted(config, aliases, message) <==>
            exists path :: LeadsAlong(message, path) && Begins(config, aliases, message, path[0]) && path[|path| - 1] == name
  {
    hide Edge, Leads, StartSet, Begins, Closure, Records;
    ClosureIsReach(Records(message), StartSet(config, aliases, message), name);
    forall a, b ensures Edge(Records(message), a, b) <==> Leads(message, a, b) {
      LeadsExactly(message, a, b);
    }
    forall n ensures n in StartSet(config, aliases, message) <==> Begins(config, aliases, message, n) {
      BeginsExactly(config, aliases, message, n);
    }
    if path :| Chain(Records(message), path) && path[0] in StartSet(config, aliases, message) && path[|path| - 1] == name {
      assert LeadsAlong(message, path);
    }
    if path :| LeadsAlong(message, path) && Begins(config, aliases, message, path[0]) && path[|path| - 1] == name {
      assert Chain(Records(message), path);
    }
  }

  // Remembered beyond the message are the old aliases and the names that only
  // such a chain makes trusted, but no question.
  lemma RememberedExactly(config: ProxyConfig, aliases: set<string>, message: Message, name: string)
    ensures name in AliasesAfter(config, aliases, message) <==>
            || name in aliases
            || (&& !Begins(config, aliases, message, name)
                && exists path :: LeadsAlong(message, path) && Begins(config, aliases, message, path[0]) && path[|path| - 1] == name)
  {
    hide Trusted, StartSet, Begins, LeadsAlong;
    TrustedExactly(config, aliases, message, name);
    BeginsExactly(config, aliases, message, name);
  }

  // An address record of either section, whose owner spells a trusted name, has
  // this network.
  ghost predicate Learnable(message: Message, trusted: set<string>, x: string) {
    exists r, owner :: InMessage(message, r) && r.Address? && Spells(r.owner, owner) && owner in trusted
      && CanonicalNetwork(r.address) == Some(x)
  }

  // Those are exactly the networks it returns.
  lemma InspectedExactly(message: Message, trusted: set<string>, x: string)
    ensures x in Extracted(message, trusted) <==> Learnable(message, trusted, x)
  {
    hide CanonicalName, Spells, Extracted, CanonicalNetwork;
    ExtractedMeaning(message, trusted, x);
    forall n, c ensures Spells(n, c) <==> CanonicalName(n) == c {
      CanonicalNameExactly(n, c);
    }
    assert forall r :: r in Records(message) <==> InMessage(message, r);
  }

  // A question spells a trusted suffix or a name under it, and an address record
  // of either section spells the same owner: its public address is returned.
  lemma QuestionLearned(config: ProxyConfig, aliases: set<string>, message: Message,
                        suffix: string, core: string, front: string, q: string, r: Record, x: string)
    requires suffix in config.trustedSuffixes && Spells(suffix, core)
    requires q in message.question && (Spells(q, core) || Spells(q, front + "." + core))
    requires (r in message.answer || r in message.extra) && r.Address? && SameName(r.owner, q)
    requires CanonicalNetwork(r.address) == Some(x)
    ensures x in Extracted(message, Trusted(config, aliases, message))
  {
    hide Spells, Labels, CanonicalName, Trusted, Extracted, CanonicalNetwork, UnderSuffix;
    var name := if Spells(q, core) then core else front + "." + core;
    SuffixAccepted(config, suffix, core, front, name);
    NetflixExactly(config, name);
    assert LeadsAlong(message, [name]) && Begins(config, aliases, message, [name][0]);
    TrustedExactly(config, aliases, message, name);
    SameNameExactly(r.owner, q);
    CanonicalNameExactly(q, name);
    CanonicalNameExactly(r.owner, name);
    assert InMessage(message, r);
    InspectedExactly(message, Trusted(config, aliases, message), x);
  }

  lemma SuffixAccepted(config: ProxyConfig, suffix: string, core: string, front: string, name: string)
    requires suffix in config.trustedSuffixes && Spells(suffix, core)
    requires name == core || name == front + "." + core
    ensures UnderSuffix(config, name)
  {
    hide Spells, Labels;
    SuffixByLabels(name, core);
    if name == front + "." + core {
      assert name[|name| - |"." + core|..] == "." + core;
    }
  }

  // ---- spelling does not matter ----

  ghost predicate SameRecord(r: Record, t: Record) {
    match (r, t)
    case (CName(a, b), CName(c, d)) => SameName(a, c) && SameName(b, d)
    case (Address(a, x), Address(b, y)) => SameName(a, b) && x == y
    case (OtherRecord, OtherRecord) => true
    case _ => false
  }

  ghost predicate SameRecords(a: seq<Record>, b: seq<Record>) {
    |a| == |b| && forall i | 0 <= i < |a| :: SameRecord(a[i], b[i])
  }

  ghost predicate Respelled(m: Message, n: Message) {
    && |m.question| == |n.question| && (forall i | 0 <= i < |m.question| :: SameName(m.question[i], n.question[i]))
    && SameRecords(m.answer, n.answer) && SameRecords(m.extra, n.extra)
  }

  lemma SameEdges(a: seq<Record>, b: seq<Record>, x: string, y: string)
    requires SameRecords(a, b) && Edge(a, x, y)
    ensures Edge(b, x, y)
  {
    hide CanonicalName, SameName;
    var r :| r in a && r.CName? && CanonicalName(r.owner) == x && CanonicalName(r.target) == y;
    var i :| 0 <= i < |a| && a[i] == r;
    assert SameRecord(a[i], b[i]);
    SameNameExactly(a[i].owner, b[i].owner);
    SameNameExactly(a[i].target, b[i].target);
    assert b[i] in b;
  }

  lemma SameReversed(a: seq<Record>, b: seq<Record>)
    requires SameRecords(a, b)
    ensures SameRecords(b, a)
  {
    hide SameName;
    forall x, y ensures SameName(x, y) == SameName(y, x) {
      SameNameExactly(x, y);
      SameNameExactly(y, x);
    }
    forall i | 0 <= i < |b| ensures SameRecord(b[i], a[i]) {
      assert SameRecord(a[i], b[i]);
    }
  }

  lemma ClosureWithin(a: seq<Record>, b: seq<Record>, start: set<string>)
    requires SameRecords(a, b)
    ensures Closure(a, start) <= Closure(b, start)
  {
    hide Closure, Edge, SameRecords;
    forall n | n in Closure(a, start) ensures n in Closure(b, start) {
      ClosureIsReach(a, start, n);
      ClosureIsReach(b, start, n);
      var path :| Chain(a, path) && path[0] in start && path[|path| - 1] == n;
      forall i | 0 < i < |path| ensures Edge(b, path[i - 1], path[i]) {
        SameEdges(a, b, path[i - 1], path[i]);
      }
      assert Chain(b, path);
    }
  }

  lemma SameQuestions(config: ProxyConfig, m: Message, n: Message)
    requires |m.question| == |n.question| && forall i | 0 <= i < |m.question| :: SameName(m.question[i], n.question[i])
    ensures NetflixQuestions(config, m) == NetflixQuestions(config, n)
  {
    hide CanonicalName, SameName, IsNetflixName;
    forall i | 0 <= i < |m.question| ensures CanonicalName(m.question[i]) == CanonicalName(n.question[i]) {
      SameNameExactly(m.question[i], n.question[i]);
    }
    forall x ensures x in NetflixQuestions(config, m) <==> x in NetflixQuestions(config, n) {
      if x in NetflixQuestions(config, m) {
        var i :| 0 <= i < |m.question| && CanonicalName(m.question[i]) == x;
        assert n.question[i] in n.question;
      }
      if x in NetflixQuestions(config, n) {
        var i :| 0 <= i < |n.question| && CanonicalName(n.question[i]) == x;
        assert m.question[i] in m.question;
      }
    }
  }

  lemma {:induction false} SameAddresses(a: seq<Record>, b: seq<Record>, trusted: set<string>)
    requires SameRecords(a, b)
    ensures Addresses(a, trusted) == Addresses(b, trusted)
  {
    hide CanonicalName, SameName;
    if a == [] {
    } else {
      assert SameRecord(a[0], b[0]);
      if a[0].Address? {
        SameNameExactly(a[0].owner, b[0].owner);
      }
      assert forall i | 0 <= i < |a[1..]| :: SameRecord(a[1..][i], b[1..][i]);
      SameAddresses(a[1..], b[1..], trusted);
    }
  }

  lemma SameSections(m: Message, n: Message)
    requires Respelled(m, n)
    ensures SameRecords(Records(m), Records(n))
  {
    hide SameRecord, SameName;
    var a, b := Records(m), Records(n);
    forall i | 0 <= i < |a| ensures SameRecord(a[i], b[i]) {
      if i < |m.answer| {
        assert SameRecord(m.answer[i], n.answer[i]);
      } else {
        assert SameRecord(m.extra[i - |m.answer|], n.extra[i - |m.answer|]);
      }
    }
  }

  // Spelling any name of a message differently changes neither the networks nor
  // the aliases.
  lemma SpellingIgnored(config: ProxyConfig, aliases: set<string>, m: Message, n: Message)
    requires Respelled(m, n)
    ensures Trusted(config, aliases, m) == Trusted(config, aliases, n)
    ensures AliasesAfter(config, aliases, m) == AliasesAfter(config, aliases, n)
    ensures Extracted(m, Trusted(config, aliases, m)) == Extracted(n, Trusted(config, aliases, n))
  {
    hide Closure, SameRecords, SameName, Addresses, Merged;
    SameQuestions(config, m, n);
    SameSections(m, n);
    SameReversed(Records(m), Records(n));
    var start := StartSet(config, aliases, m);
    ClosureWithin(Records(m), Records(n), start);
    ClosureWithin(Records(n), Records(m), start);
    SameAddresses(Records(m), Records(n), Trusted(config, aliases, m));
  }
}
