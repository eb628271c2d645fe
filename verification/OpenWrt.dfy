// internal/pbr/drivers.go: the openwrt-pbr driver and its reading back of the
// two UCI lists.
module OpenWrt {
  import opened Strings
  import opened Networks
  import opened NetworkSets
  import opened Commands

  // The two settings the driver writes; an absent option has no text, an absent
  // list no entries.
  datatype Uci = Uci(destAddr: Option<string>, destIp: seq<string>)

  // What `uci get` prints; None is its error for something absent.
  function GetDestAddr(u: Uci): Option<string> {
    match u.destAddr case None => None case Some(text) => Some(text + "\n")
  }

  function GetDestIp(u: Uci): Option<string> {
    if u.destIp == [] then None else Some(Join(u.destIp, ' ') + "\n")
  }

  // readUCIList: None is a list that cannot be trusted.
  ghost function ReadList(output: Option<string>, absentOK: bool): Option<seq<string>> {
    match output
    case None => if absentOK then Some([]) else None
    case Some(out) => Validated(Fields(out), false, if |Fields(out)| == 0 then 1 else |Fields(out)|)
  }

  // The output stands for exactly these networks.
  ghost predicate Denotes(output: Option<string>, nets: seq<string>) {
    match output
    case None => nets == []
    case Some(out) => AllAcceptable(Fields(out), false) && CanonSet(Fields(out)) == Elems(nets)
  }

  lemma {:induction false} CanonSetSize(values: seq<string>)
    ensures |CanonSet(values)| <= |values|
  {
    hide CanonicalNetwork;
    if values == [] {
    } else {
      var front, last := values[..|values| - 1], values[|values| - 1];
      CanonSetSize(front);
      assert values == front + [last];
      var extra := match CanonicalNetwork(last) case Some(v) => {v} case None => {};
      assert CanonSet(values) == CanonSet(front) + extra;
    }
  }

  // The limit never bites: reading succeeds on acceptable fields and gives the
  // sorted networks, in whatever order and form the text has them.
  lemma ReadMeaning(out: string, absentOK: bool)
    ensures ReadList(Some(out), absentOK) ==
            if AllAcceptable(Fields(out), false) then Some(SortedOf(CanonSet(Fields(out)))) else None
  {
    CanonSetSize(Fields(out));
  }

  // The test of reconcileOpenWrt on one list.
  lemma ReadIsDenotes(output: Option<string>, nets: seq<string>)
    requires CanonList(nets)
    ensures ReadList(output, |nets| == 0) == Some(nets) <==> Denotes(output, nets)
  {
    match output
    case None =>
    case Some(out) =>
      ReadMeaning(out, |nets| == 0);
      if CanonSet(Fields(out)) == Elems(nets) {
        SortedOfElems(nets);
      }
      assert Elems(SortedOf(CanonSet(Fields(out)))) == CanonSet(Fields(out));
  }

  // Any ordering of a canonical list, joined by spaces, reads back as the list.
  lemma JoinedReadsBack(parts: seq<string>, nets: seq<string>)
    requires CanonList(nets) && Elems(parts) == Elems(nets)
    ensures Denotes(Some(Join(parts, ' ') + "\n"), nets)
  {
    forall p | p in parts ensures Canonical(p) && p != "" && Free(p, SPACES) {
      assert p in Elems(nets);
      CanonicalText(p);
    }
    FieldsOfJoin(parts);
    CanonListSet(parts);
  }

  // ---- the driver ----

  datatype UciAnswers = UciAnswers(
    setAddr: Answer, delete: Answer, adds: seq<Answer>, commitPbr: Answer, commitFirewall: Answer,
    reloadFirewall: Answer, reloadPbr: Answer)

  // Whether each list can be read, and whether each service reports running.
  datatype ReadAnswers = ReadAnswers(pbr: bool, firewall: bool, firewallRuns: bool, pbrRuns: bool)

  function DestAddr(nets: seq<string>): Option<string> {
    if Join(nets, ' ') == "" then None else Some(Join(nets, ' '))
  }

  // The list that `uci add_list` is left to append to.
  function LeftInList(u: Uci, delete: Answer): seq<string> {
    if delete == Refused then u.destIp else []
  }

  class UciKernel {
    // Settings not yet committed, committed, and loaded by the services.
    var staged: Uci
    var committed: Uci
    var running: Uci

    constructor (staged: Uci, committed: Uci, running: Uci)
      ensures this.staged == staged && this.committed == committed && this.running == running
    {
      this.staged, this.committed, this.running := staged, committed, running;
    }

    method ReadUCIList(output: Option<string>, absentOK: bool) returns (values: Option<seq<string>>)
      ensures values == ReadList(output, absentOK)
    {
      if output.None? {
        return if absentOK then Some([]) else None;
      }
      var fields := Fields(output.value);
      var limit := |fields|;
      if limit == 0 {
        limit := 1;
      }
      values := ValidateNetworks(fields, false, limit);
    }

    method StageLists(nets: seq<string>, a: UciAnswers) returns (ok: bool)
      modifies this`staged
      ensures ok ==> staged == Uci(DestAddr(nets), LeftInList(old(staged), a.delete) + nets)
      ensures a.setAddr.Works? && AllWork(a.adds, |nets|) ==> ok
      ensures !a.setAddr.Works? ==> !ok && staged.destIp == old(staged).destIp
    {
      if a.setAddr != Refused {
        staged := staged.(destAddr := DestAddr(nets));
      }
      if a.setAddr != Works {
        return false;
      }
      // An error of the deletion is ignored.
      if a.delete != Refused {
        staged := staged.(destIp := []);
      }
      for i := 0 to |nets|
        invariant staged == Uci(DestAddr(nets), LeftInList(old(staged), a.delete) + nets[..i])
      {
        if Nth(a.adds, i) != Refused {
          staged := staged.(destIp := staged.destIp + [nets[i]]);
        }
        if Nth(a.adds, i) != Works {
          return false;
        }
        assert nets[..i + 1] == nets[..i] + [nets[i]];
      }
      assert nets[..|nets|] == nets;
      return true;
    }

    method CommitAndReload(a: UciAnswers) returns (ok: bool)
      modifies this`committed, this`running
      ensures ok ==> committed == staged && running == staged
      ensures a.commitPbr.Refused? ==> !ok && committed == old(committed) && running == old(running)
      ensures !a.commitPbr.Works? || !a.commitFirewall.Works? ==> !ok && running == old(running)
      ensures running.destIp in {old(running).destIp, committed.destIp} && running.destAddr in {old(running).destAddr, committed.destAddr}
      ensures running.destAddr != old(running).destAddr ==> running.destIp == committed.destIp
      ensures a.commitPbr.Works? && a.commitFirewall.Works? && a.reloadFirewall.Works? && a.reloadPbr.Works? ==> ok
    {
      if a.commitPbr != Refused {
        committed := committed.(destAddr := staged.destAddr);
      }
      if a.commitPbr != Works {
        return false;
      }
      if a.commitFirewall != Refused {
        committed := committed.(destIp := staged.destIp);
      }
      if a.commitFirewall != Works {
        return false;
      }
      if a.reloadFirewall != Refused {
        running := running.(destIp := committed.destIp);
      }
      if a.reloadFirewall != Works {
        return false;
      }
      if a.reloadPbr != Refused {
        running := running.(destAddr := committed.destAddr);
      }
      return a.reloadPbr.Works?;
    }

    // applyOpenWrt
    method ApplyOpenWrt(nets: seq<string>, a: UciAnswers) returns (ok: bool)
      modifies this
      ensures ok ==> staged == committed == running == Uci(DestAddr(nets), LeftInList(old(staged), a.delete) + nets)
      ensures a.setAddr.Works? && AllWork(a.adds, |nets|) ==>
                staged == Uci(DestAddr(nets), LeftInList(old(staged), a.delete) + nets)
      ensures a.commitPbr.Refused? ==> !ok && committed == old(committed) && running == old(running)
    {
      ok := StageLists(nets, a);
      if ok {
        ok := CommitAndReload(a);
      }
    }

    // Both lists, as far as they can be read, denote nets.
    ghost predicate InPlace(nets: seq<string>, r: ReadAnswers)
      reads this
    {
      Denotes(if r.pbr then GetDestAddr(staged) else None, nets) && Denotes(if r.firewall then GetDestIp(staged) else None, nets)
    }

    // What is staged is committed, and each service runs it or is about to be
    // reloaded because it does not report running.
    predicate Loaded(r: ReadAnswers)
      reads this
    {
      && committed == staged
      && (r.firewallRuns ==> running.destIp == staged.destIp)
      && (r.pbrRuns ==> running.destAddr == staged.destAddr)
    }

    // reconcileOpenWrt writes no setting exactly when both lists denote nets.
    // Its success leaves what is staged committed and running exactly when the
    // lists did not denote nets before, or were committed and loaded already.
    method ReconcileOpenWrt(nets: seq<string>, r: ReadAnswers, a: UciAnswers) returns (ok: bool)
      requires CanonList(nets)
      modifies this
      ensures old(InPlace(nets, r)) ==> staged == old(staged) && committed == old(committed)
      ensures ok && !old(InPlace(nets, r)) ==>
                staged == committed == running == Uci(DestAddr(nets), LeftInList(old(staged), a.delete) + nets)
      ensures old(InPlace(nets, r)) && r.firewallRuns && r.pbrRuns ==> ok && running == old(running)
      ensures ok ==> (staged == committed == running <==> !old(InPlace(nets, r)) || old(Loaded(r)))
      ensures !old(InPlace(nets, r)) && a.setAddr.Works? && AllWork(a.adds, |nets|) ==>
                staged == Uci(DestAddr(nets), LeftInList(old(staged), a.delete) + nets)
      ensures !old(InPlace(nets, r)) && a.commitPbr.Refused? ==> !ok && committed == old(committed) && running == old(running)
    {
      var pbr := ReadUCIList(if r.pbr then GetDestAddr(staged) else None, |nets| == 0);
      var firewall := ReadUCIList(if r.firewall then GetDestIp(staged) else None, |nets| == 0);
      ReadIsDenotes(if r.pbr then GetDestAddr(staged) else None, nets);
      ReadIsDenotes(if r.firewall then GetDestIp(staged) else None, nets);
      if pbr.None? || firewall.None? || pbr.value != nets || firewall.value != nets {
        ok := ApplyOpenWrt(nets, a);
        return;
      }
      if !r.firewallRuns {
        if a.reloadFirewall != Refused {
          running := running.(destIp := committed.destIp);
        }
        if a.reloadFirewall != Works {
          return false;
        }
      }
      if !r.pbrRuns {
        if a.reloadPbr != Refused {
          running := running.(destAddr := committed.destAddr);
        }
        return a.reloadPbr.Works?;
      }
      return true;
    }
  }

  // What a write leaves denotes nets exactly when the ignored deletion left
  // nothing else in the list: then the next reconcile writes nothing.
  lemma WrittenDenotes(nets: seq<string>, leftover: seq<string>)
    requires CanonList(nets) && forall x | x in leftover :: x != "" && Free(x, SPACES)
    ensures var u := Uci(DestAddr(nets), leftover + nets);
            && Denotes(GetDestAddr(u), nets)
            && (Denotes(GetDestIp(u), nets) <==> AllAcceptable(leftover, false) && CanonSet(leftover) <= Elems(nets))
  {
    var u := Uci(DestAddr(nets), leftover + nets);
    TextOf(nets);
    var all := leftover + nets;
    forall x | x in all ensures x != "" && Free(x, SPACES) {
      if x in nets { CanonicalText(x); }
    }
    if all != [] {
      FieldsOfJoin(all);
      CanonListSet(nets);
      assert CanonSet(all) == CanonSet(leftover) + CanonSet(nets);
      assert AllAcceptable(all, false) <==> AllAcceptable(leftover, false) by {
        forall x | x in nets ensures CanonicalNetwork(x).Some? { assert Canonical(x); }
        forall x | x in leftover ensures x in all {}
      }
    }
  }

  lemma TextOf(nets: seq<string>)
    requires CanonList(nets)
    ensures Denotes(GetDestAddr(Uci(DestAddr(nets), [])), nets)
  {
    if nets == [] {
    } else {
      CanonicalText(nets[0]);
      assert Join(nets, ' ') != "";
      JoinedReadsBack(nets, nets);
    }
  }

  // Two periodic checks of drifted settings. The first stages nets and fails at
  // its commit. That leaves the list applied unchanged, so the next is again a
  // reconcileOpenWrt; it reads the lists as staged, finds them in place and
  // succeeds, while the drifted settings stay committed and running.
  method StagedLooksInPlace(k: UciKernel, nets: seq<string>, a: UciAnswers, b: UciAnswers) returns (first: bool, second: bool)
    requires CanonList(nets) && a.setAddr.Works? && a.delete.Works? && AllWork(a.adds, |nets|) && a.commitPbr.Refused?
    requires k.staged == k.committed == k.running && !k.InPlace(nets, ReadAnswers(true, true, true, true))
    modifies k
    ensures !first && second && k.staged == Uci(DestAddr(nets), nets)
    ensures k.committed == k.running == old(k.committed) != k.staged
  {
    var readable := ReadAnswers(true, true, true, true);
    first := k.ReconcileOpenWrt(nets, readable, a);
    assert [] + nets == nets;
    WrittenDenotes(nets, []);
    second := k.ReconcileOpenWrt(nets, readable, b);
  }
}
