/** The two backends are interchangeable. */
module Backends {
  import opened Backend
  import N = NftKernel
  import NftScript
  import NftMeaning
  import NftApply
  import I = IpKernel
  import IptablesSafety
  import IptablesMeaning
  import IptablesApply

  // Whatever happened before, once both backends have successfully applied states that block the same addresses, they
  // give every packet the same verdict.
  lemma SameVerdict(rs: N.Ruleset, k: I.Kernel, a: State, b: State, p: Packet)
    requires NftScript.Implements(rs, a) && IptablesSafety.Exact(k, b)
    requires forall t, f :: Contents(a, t, f) == Contents(b, t, f)
    ensures N.Drops(rs, p) <==> I.Drops(k, p)
  {
    hide NftScript.Implements, IptablesSafety.Exact, N.Drops, I.Drops;
    NftMeaning.ImplementsMeansSpec(rs, a, p);
    IptablesMeaning.ExactMeansSpec(k, b, p);
    VerdictIsMembership(a, b);
  }

  // Successful calls to the two backends, from any rulesets: stale sets, left-over sets of former users and an old
  // table do not show.
  lemma SameVerdictAfterApply(n: NftApply.Memory, i: IptablesApply.Memory, state: State,
                              nftFails: (NftApply.Outcome, NftApply.Outcome), faults: IptablesApply.Faults, p: Packet)
    requires NftApply.InSync(n) && IptablesApply.InSync(i)
    requires NftApply.Applied(n, state, nftFails).1 && IptablesApply.Applied(i, state, faults).1
    ensures N.Drops(NftApply.Applied(n, state, nftFails).0.ruleset, p)
       <==> I.Drops(IptablesApply.Applied(i, state, faults).0.kernel, p)
  {
    hide NftScript.Implements, IptablesSafety.Exact, N.Drops, I.Drops, NftApply.Applied, IptablesApply.Applied,
         NftApply.InSync, IptablesApply.InSync, Contents;
    NftApply.ApplyKeepsSync(n, state, nftFails);
    IptablesApply.ApplyKeepsSync(i, state, faults);
    SameVerdict(NftApply.Applied(n, state, nftFails).0.ruleset, IptablesApply.Applied(i, state, faults).0.kernel,
      state, state, p);
  }

  // It makes no difference either whether the users with nothing to block are left out first.
  lemma EmptyUsersDoNotShow(n: NftApply.Memory, i: IptablesApply.Memory, state: State,
                            nftFails: (NftApply.Outcome, NftApply.Outcome), faults: IptablesApply.Faults, p: Packet)
    requires NftApply.InSync(n) && IptablesApply.InSync(i)
    requires NftApply.Applied(n, state, nftFails).1 && IptablesApply.Applied(i, WithoutEmptyUsers(state), faults).1
    ensures N.Drops(NftApply.Applied(n, state, nftFails).0.ruleset, p)
       <==> I.Drops(IptablesApply.Applied(i, WithoutEmptyUsers(state), faults).0.kernel, p)
  {
    hide NftScript.Implements, IptablesSafety.Exact, N.Drops, I.Drops, NftApply.Applied, IptablesApply.Applied,
         NftApply.InSync, IptablesApply.InSync, Blocks, WithoutEmptyUsers;
    NftApply.ApplyKeepsSync(n, state, nftFails);
    IptablesApply.ApplyKeepsSync(i, WithoutEmptyUsers(state), faults);
    NftMeaning.ImplementsMeansSpec(NftApply.Applied(n, state, nftFails).0.ruleset, state, p);
    IptablesMeaning.ExactMeansSpec(IptablesApply.Applied(i, WithoutEmptyUsers(state), faults).0.kernel,
                                   WithoutEmptyUsers(state), p);
    OmittingEmptyUsers(state);
  }
}
