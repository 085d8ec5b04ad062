/** Whichever backend the daemon found at startup, its memory and its kernel together. */
module Firewall {
  import opened Wrappers
  import opened Backend
  import N = NftApply
  import I = IptablesApply
  import NK = NftKernel
  import IK = IpKernel
  import NftMeaning
  import IptablesMeaning
  import IptablesSafety

  datatype Firewall = Nft(nft: N.Memory) | Iptables(ipt: I.Memory)

  // What goes wrong during one Apply call, for either backend.
  datatype Faults = Faults(nft: (N.Outcome, N.Outcome), ipt: I.Faults)

  function KindOf(fw: Firewall): Kind {
    if fw.Nft? then Nftables else IptablesIpset
  }

  function Last(fw: Firewall): Option<State> {
    if fw.Nft? then fw.nft.last else fw.ipt.last
  }

  ghost predicate InSync(fw: Firewall) {
    if fw.Nft? then N.InSync(fw.nft) else I.InSync(fw.ipt)
  }

  ghost predicate Drops(fw: Firewall, p: Packet) {
    if fw.Nft? then NK.Drops(fw.nft.ruleset, p) else IK.Drops(fw.ipt.kernel, p)
  }

  ghost function Apply(fw: Firewall, state: State, faults: Faults): (Firewall, bool) {
    if fw.Nft? then
      var (m, ok) := N.Applied(fw.nft, state, faults.nft);
      (Nft(m), ok)
    else
      var (m, ok) := I.Applied(fw.ipt, state, faults.ipt);
      (Iptables(m), ok)
  }

  // No command fails but those the kernel refuses.
  ghost predicate Faultless(fw: Firewall, state: State, faults: Faults) {
    if fw.Nft? then faults.nft == (N.Fine, N.Fine)
    else faults.ipt.rebuild >= |IptablesSafety.FullSteps(state, I.Uids(state))|
  }

  // An Apply can always go without a fault.
  lemma FaultlessIsPossible(fw: Firewall, state: State)
    ensures exists faults :: Faultless(fw, state, faults)
  {
    var n := |IptablesSafety.FullSteps(state, I.Uids(state))|;
    assert Faultless(fw, state, Faults((N.Fine, N.Fine), I.Faults(n, n, {})));
  }

  // Success is remembered, failure forgets, and the kernel is always in step with the memory.
  lemma ApplyKeepsSync(fw: Firewall, state: State, faults: Faults)
    requires InSync(fw)
    ensures var (fw', ok) := Apply(fw, state, faults);
            InSync(fw') && Last(fw') == if ok then Some(state) else None
  {
    hide N.Applied, I.Applied, N.InSync, I.InSync;
    if fw.Nft? {
      N.ApplyKeepsSync(fw.nft, state, faults.nft);
    } else {
      I.ApplyKeepsSync(fw.ipt, state, faults.ipt);
    }
  }

  // One user that does not fit, and for ipset one null address in one list, keeps every Apply from succeeding, for all
  // users; apart from that, only faults do.
  lemma SucceedsIff(fw: Firewall, state: State, faults: Faults)
    requires InSync(fw) && DistinctLists(state)
    ensures Apply(fw, state, faults).1 ==> Loadable(KindOf(fw), state)
    ensures Faultless(fw, state, faults) ==> (Apply(fw, state, faults).1 <==> Loadable(KindOf(fw), state))
  {
    hide N.Applied, I.Applied, N.InSync, I.InSync, DistinctLists, UidsInRange, OwnersInRange, Holdable;
    if fw.Nft? {
      N.ApplyKeepsSync(fw.nft, state, faults.nft);
    } else {
      I.ApplyKeepsSync(fw.ipt, state, faults.ipt);
    }
  }

  // The kernel does to every packet what the remembered state says.
  lemma InSyncMeans(fw: Firewall, p: Packet)
    requires InSync(fw) && Last(fw).Some?
    ensures Drops(fw, p) <==> Blocks(Last(fw).value, p)
  {
    hide NK.Drops, IK.Drops, Blocks;
    if fw.Nft? {
      NftMeaning.ImplementsMeansSpec(fw.nft.ruleset, Last(fw).value, p);
    } else {
      IptablesMeaning.ExactMeansSpec(fw.ipt.kernel, Last(fw).value, p);
    }
  }
}
