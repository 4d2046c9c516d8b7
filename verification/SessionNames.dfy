/** Display names stay apart, except for shared gateway identities. */
module SessionNames {
  import opened Wrappers
  import opened CaseFold
  import opened SessionPresence
  import opened SessionRuns
  import NameRules

  /** No two generated defaults clash, shown or not. */
  ghost predicate DistinctDefaults(ps: map<WindowId, Participant>) {
    forall v, w | v in ps && w in ps && v != w :: !Clash(ps[v].defaultName, ps[w].defaultName)
  }

  /** Two participants show clashing names only if one shows its gateway identity. */
  ghost predicate DistinctShown(ps: map<WindowId, Participant>) {
    forall v, w | v in ps && w in ps && v != w && !ShowsIdentity(ps[v]) && !ShowsIdentity(ps[w]) ::
      !Clash(EffectiveName(ps[v]), EffectiveName(ps[w]))
  }

  ghost predicate NamesApart(ps: map<WindowId, Participant>) {
    DistinctDefaults(ps) && DistinctShown(ps)
  }

  /** `q` is named like `p`, whatever else changed. */
  ghost predicate SameNaming(p: Participant, q: Participant) {
    p.name == q.name && p.identity == q.identity && p.defaultName == q.defaultName
  }

  lemma SubsetKeepsNames(ps: map<WindowId, Participant>, qs: map<WindowId, Participant>)
    requires NamesApart(ps)
    requires forall w | w in qs :: w in ps && SameNaming(ps[w], qs[w])
    ensures NamesApart(qs)
  {
    hide Fold;
    assert forall w | w in qs :: EffectiveName(qs[w]) == EffectiveName(ps[w]);
  }

  lemma NewDefaultKeepsNames(r: Registry, w: WindowId, p: Participant)
    requires NamesApart(r.participants) && w !in r.participants
    requires FreshDefault(r, p.defaultName) && p.name.None?
    ensures NamesApart(r.participants[w := p])
  {
    hide Fold;
    var ps := r.participants[w := p];
    forall v | v in r.participants
      ensures !Clash(ps[v].defaultName, p.defaultName) && !Clash(p.defaultName, ps[v].defaultName)
      ensures !ShowsIdentity(p) ==> !Clash(EffectiveName(ps[v]), EffectiveName(p)) && !Clash(EffectiveName(p), EffectiveName(ps[v]))
    {
    }
  }

  lemma RenameKeepsNames(r: Registry, w: WindowId, name: Option<string>)
    requires NamesApart(r.participants)
    ensures NamesApart(Rename(r, w, name).participants)
  {
    hide Fold, NameRules.WellFormed, NameRules.Stored;
    if RenameAllowed(r, w, name) {
      var p := r.participants[w].(name := NameRules.Stored(name));
      var ps := Rename(r, w, name).participants;
      forall v | v in r.participants && v != w && !ShowsIdentity(p)
        ensures !Clash(EffectiveName(ps[v]), EffectiveName(p)) && !Clash(EffectiveName(p), EffectiveName(ps[v]))
      {
        assert CheckedName(r.participants[w], NameRules.Stored(name)) == Some(EffectiveName(p));
        assert !Holds(r, w, name, v);
      }
    }
  }

  lemma StepKeepsNames(s: System, e: Event)
    requires Inv(s) && Enabled(s, e) && NamesApart(s.registry.participants)
    ensures NamesApart(Next(s.registry, e).participants)
  {
    hide NamesApart, Rename, FreshDefault, BestOwner, RequestHandover, ResolveHandover, CancelHandover, Takeover, Stable;
    var ps, qs := s.registry.participants, Next(s.registry, e).participants;
    match e
    case Renamed(w, name) => RenameKeepsNames(s.registry, w, name);
    case Joined(w, local, identity, name) =>
      if w in ps {
        SubsetKeepsNames(ps, qs);
      } else {
        NewDefaultKeepsNames(s.registry, w, qs[w]);
      }
    case Dropped(_, _) => SubsetKeepsNames(ps, qs);
    case Reaped(_) => SubsetKeepsNames(ps, qs);
    case _ => HandoversKeepStable(s.registry, e);
  }

  lemma {:induction false} RunKeepsNames(s: System, events: seq<Event>, t: System)
    requires Inv(s) && NamesApart(s.registry.participants) && Run(s, events, t)
    ensures NamesApart(t.registry.participants)
    decreases |events|
  {
    hide NamesApart, Inv, Next, Enabled;
    if events != [] {
      StepKeepsInv(s, events[0]);
      StepKeepsNames(s, events[0]);
      RunKeepsNames(Apply(s, events[0]), events[1..], t);
    }
  }

  /** Names stay apart in every reachable registry. */
  lemma ReachableNamesApart(events: seq<Event>, t: System)
    requires Run(START, events, t)
    ensures DistinctDefaults(t.registry.participants) && DistinctShown(t.registry.participants)
  {
    RunKeepsNames(START, events, t);
  }

  /** The window shows something other than its generated default. */
  predicate ShowsOverride(p: Participant) {
    p.name.Some? || ShowsIdentity(p)
  }

  /** A name that clashes with another window's default is not a default. */
  lemma ClashIsOverride(ps: map<WindowId, Participant>, v: WindowId, w: WindowId)
    requires DistinctDefaults(ps) && v in ps && w in ps && v != w
    requires Clash(EffectiveName(ps[v]), ps[w].defaultName)
    ensures ShowsOverride(ps[v])
  {
    hide Fold;
  }

  /**
   * In every reachable registry a reset that would show the generated default
   * is refused exactly because another window's explicit name or gateway
   * identity clashes with it, never because of another default.
   */
  lemma ResetRefusedIff(events: seq<Event>, t: System, w: WindowId)
    requires Run(START, events, t) && w in t.registry.participants
    requires DisplayString(t.registry.participants[w].identity).None?
    ensures var ps := t.registry.participants;
            !RenameAllowed(t.registry, w, None) <==>
            exists v :: && v in ps && v != w && ShowsOverride(ps[v])
                        && Clash(EffectiveName(ps[v]), ps[w].defaultName)
  {
    ReachableNamesApart(events, t);
    hide Run, Fold, DistinctShown, EffectiveName, ShowsOverride;
    var ps := t.registry.participants;
    if !RenameAllowed(t.registry, w, None) {
      var v :| Holds(t.registry, w, None, v);
      ClashIsOverride(ps, v, w);
    } else {
      forall v | v in ps && v != w
        ensures !Clash(EffectiveName(ps[v]), ps[w].defaultName)
      {
        assert !Holds(t.registry, w, None, v);
      }
    }
  }

  // ---- Explicit names are stored as the rules accept them ---------------------------------

  ghost predicate NamesAccepted(ps: map<WindowId, Participant>) {
    forall w | w in ps :: NameRules.Accepted(ps[w].name)
  }

  lemma StepKeepsAccepted(s: System, e: Event)
    requires Inv(s) && Enabled(s, e) && NamesAccepted(s.registry.participants)
    ensures NamesAccepted(Next(s.registry, e).participants)
  {
    hide NameRules.Accepted, NameRules.Stored, RequestHandover, ResolveHandover, CancelHandover, Takeover, BestOwner,
         FreshDefault, Stable, Holds;
    match e
    case Renamed(w, name) =>
      if RenameAllowed(s.registry, w, name) {
        NameRules.StoredIsAccepted(name);
      }
    case Joined(w, local, identity, name) => NoNameAccepted();
    case Dropped(_, _) =>
    case Reaped(_) =>
    case _ => HandoversKeepStable(s.registry, e);
  }

  lemma NoNameAccepted()
    ensures NameRules.Accepted(None)
  {
  }

  lemma {:induction false} RunKeepsAccepted(s: System, events: seq<Event>, t: System)
    requires Inv(s) && NamesAccepted(s.registry.participants) && Run(s, events, t)
    ensures NamesAccepted(t.registry.participants)
    decreases |events|
  {
    hide NamesAccepted, Inv, Next, Enabled;
    if events != [] {
      StepKeepsInv(s, events[0]);
      StepKeepsAccepted(s, events[0]);
      RunKeepsAccepted(Apply(s, events[0]), events[1..], t);
    }
  }

  /** Whatever names callers pass, every explicit name in a reachable registry is one the rules accept as it is. */
  lemma ReachableNamesAccepted(events: seq<Event>, t: System, w: WindowId)
    requires Run(START, events, t) && w in t.registry.participants && t.registry.participants[w].name.Some?
    ensures NameRules.Validate(t.registry.participants[w].name.value) == Ok(t.registry.participants[w].name.value)
  {
    RunKeepsAccepted(START, events, t);
    hide Run, NameRules.Validate;
  }

  /** Two windows of one person may show one gateway identity. */
  lemma IdentitiesMayBeShared() returns (events: seq<Event>, t: System)
    ensures Run(START, events, t)
    ensures "a" in t.registry.participants && "b" in t.registry.participants
    ensures EffectiveName(t.registry.participants["a"]) == EffectiveName(t.registry.participants["b"])
  {
    hide BestOwner;
    var sam := Some(Identity(Some("zoe"), None));
    var first := Joined("a", false, sam, "x");
    var second := Joined("b", false, sam, "y");
    events := [first, second];
    var s := Apply(START, first);
    assert FreshDefault(s.registry, "y") by {
      PlainIsOwnKey("x");
      PlainIsOwnKey("y");
      PlainIsOwnKey("zoe");
      hide Fold;
    }
    t := Apply(s, second);
    assert Run(t, [], t);
    assert events[1..] == [second] && [second][1..] == [];
    assert Run(s, [second], t);
  }
}
