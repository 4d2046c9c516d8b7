/** Which windows have live sockets, and which holders have them. */
module WindowPresence {
  import opened Wrappers

  type WindowId = string
  type HolderTag = string

  /** The live sockets of one window. */
  datatype Sockets = Sockets(untagged: nat, tagged: map<HolderTag, nat>)

  type Presence = map<WindowId, Sockets>

  /** One socket's guard. */
  datatype Guard = Guard(window: WindowId, holder: Option<HolderTag>)

  /** What a step tells the rest: the change signal, and the window hook's argument. */
  datatype Signals = Signals(changed: bool, hooked: Option<WindowId>)

  const NO_SOCKETS := Sockets(0, map[])

  function SocketsOf(p: Presence, w: WindowId): Sockets {
    if w in p then p[w] else NO_SOCKETS
  }

  function Tagged(s: Sockets, tag: HolderTag): nat {
    if tag in s.tagged then s.tagged[tag] else 0
  }

  function SaturatingDec(n: nat): nat {
    if n > 0 then n - 1 else 0
  }

  // ---- One socket more or less ---------------------------------------------------------

  function Connect(p: Presence, g: Guard): (Presence, Signals) {
    var newly := g.window !in p;
    var s := SocketsOf(p, g.window);
    match g.holder
    case Some(tag) =>
      var count := Tagged(s, tag) + 1;
      (p[g.window := s.(tagged := s.tagged[tag := count])],
       Signals(newly || count == 1, if newly then Some(g.window) else None))
    case None =>
      (p[g.window := s.(untagged := s.untagged + 1)], Signals(newly, if newly then Some(g.window) else None))
  }

  /** The sockets left of a window, and whether the guard's holder left it. */
  function Release(s: Sockets, holder: Option<HolderTag>): (Sockets, bool) {
    match holder
    case Some(tag) =>
      if tag !in s.tagged then (s, false)
      else if s.tagged[tag] <= 1 then (s.(tagged := s.tagged - {tag}), true)
      else (s.(tagged := s.tagged[tag := s.tagged[tag] - 1]), false)
    case None => (s.(untagged := SaturatingDec(s.untagged)), false)
  }

  function Disconnect(p: Presence, g: Guard): (Presence, Signals) {
    if g.window !in p then (p, Signals(false, None))
    else
      var (s, holderLeft) := Release(p[g.window], g.holder);
      if s == NO_SOCKETS then (p - {g.window}, Signals(true, Some(g.window)))
      else (p[g.window := s], Signals(holderLeft, None))
  }

  // ---- What the window lists read ---------------------------------------------------------

  /** Each connected window with the set of its holders. */
  function View(p: Presence): map<WindowId, set<HolderTag>> {
    map w | w in p :: p[w].tagged.Keys
  }

  // ---- The map counts the guards -------------------------------------------------------------

  /** The live sockets counted for one window and holder. */
  function CountOf(p: Presence, g: Guard): nat {
    match g.holder
    case Some(tag) => Tagged(SocketsOf(p, g.window), tag)
    case None => SocketsOf(p, g.window).untagged
  }

  /** A window is listed only while it has a socket, a holder only while it has one. */
  ghost predicate Tidy(p: Presence) {
    && (forall w | w in p :: p[w] != NO_SOCKETS)
    && (forall w, tag | w in p && tag in p[w].tagged :: p[w].tagged[tag] > 0)
  }

  /** The map holds, per window and holder, the number of outstanding guards. */
  ghost predicate Counts(p: Presence, guards: multiset<Guard>) {
    && (forall g: Guard :: guards[g] == CountOf(p, g))
    && Tidy(p)
  }

  lemma ConnectCountsOne(p: Presence, g: Guard, other: Guard)
    ensures CountOf(Connect(p, g).0, other) == CountOf(p, other) + if other == g then 1 else 0
  {
  }

  lemma ConnectCounts(p: Presence, guards: multiset<Guard>, g: Guard)
    requires Counts(p, guards)
    ensures Counts(Connect(p, g).0, guards + multiset{g})
  {
    var p' := Connect(p, g).0;
    assert Tidy(p') by {
      assert g.holder.Some? ==> g.holder.value in p'[g.window].tagged;
    }
    forall other: Guard
      ensures (guards + multiset{g})[other] == CountOf(p', other)
    {
      hide Connect, CountOf;
      ConnectCountsOne(p, g, other);
      assert guards[other] == CountOf(p, other);
    }
  }

  /** The saturating decrements never saturate: an outstanding guard is counted. */
  lemma GuardIsCounted(p: Presence, guards: multiset<Guard>, g: Guard)
    requires Counts(p, guards) && g in guards
    ensures g.window in p && CountOf(p, g) > 0
  {
    assert guards[g] == CountOf(p, g);
  }

  lemma DisconnectCountsOne(p: Presence, g: Guard, other: Guard)
    requires Tidy(p) && CountOf(p, g) > 0
    ensures CountOf(Disconnect(p, g).0, other) == CountOf(p, other) - if other == g then 1 else 0
  {
  }

  lemma DisconnectTidy(p: Presence, g: Guard)
    requires Tidy(p)
    ensures Tidy(Disconnect(p, g).0)
  {
  }

  lemma DisconnectCounts(p: Presence, guards: multiset<Guard>, g: Guard)
    requires Counts(p, guards) && g in guards
    ensures Counts(Disconnect(p, g).0, guards - multiset{g})
  {
    GuardIsCounted(p, guards, g);
    DisconnectTidy(p, g);
    hide Disconnect, CountOf, Tidy;
    forall other: Guard
      ensures (guards - multiset{g})[other] == CountOf(Disconnect(p, g).0, other)
    {
      DisconnectCountsOne(p, g, other);
      assert guards[other] == CountOf(p, other);
    }
  }

  /** A connect signals exactly a change of the view, and hooks exactly a newly connected window. */
  lemma ConnectSignals(p: Presence, guards: multiset<Guard>, g: Guard)
    requires Counts(p, guards)
    ensures var (p', signals) := Connect(p, g);
            && (signals.changed <==> View(p') != View(p))
            && (signals.hooked.Some? <==> p'.Keys != p.Keys)
            && (signals.hooked.Some? ==> p'.Keys == p.Keys + {signals.hooked.value} && signals.changed)
  {
    var (p', signals) := Connect(p, g);
    assert View(p').Keys == p'.Keys && View(p).Keys == p.Keys;
    assert g.window in p' && (g.holder.Some? ==> g.holder.value in View(p')[g.window]);
    if signals.changed {
      assert g.window in p ==> g.holder.Some? && g.holder.value !in View(p)[g.window];
    } else {
      assert View(p')[g.window] == View(p)[g.window];
      assert View(p') == View(p);
    }
  }

  /** A disconnect signals exactly a change of the view, and hooks exactly a window that left. */
  lemma DisconnectSignals(p: Presence, guards: multiset<Guard>, g: Guard)
    requires Counts(p, guards) && g in guards
    ensures var (p', signals) := Disconnect(p, g);
            && (signals.changed <==> View(p') != View(p))
            && (signals.hooked.Some? <==> p'.Keys != p.Keys)
            && (signals.hooked.Some? ==> p'.Keys == p.Keys - {signals.hooked.value} && signals.changed)
  {
    GuardIsCounted(p, guards, g);
    var (p', signals) := Disconnect(p, g);
    assert View(p').Keys == p'.Keys && View(p).Keys == p.Keys;
    if g.window in p' {
      if signals.changed {
        assert g.holder.value in View(p)[g.window] && g.holder.value !in View(p')[g.window];
      } else {
        assert p'[g.window].tagged.Keys == p[g.window].tagged.Keys;
        assert View(p') == View(p);
      }
    }
  }

  // ---- Runs --------------------------------------------------------------------------------------

  datatype Event = Connected(guard: Guard) | Dropped(guard: Guard)

  /** Every guard is dropped at most once: the multiset of those outstanding follows the events. */
  ghost predicate Run(p: Presence, guards: multiset<Guard>, events: seq<Event>, p': Presence, guards': multiset<Guard>)
    decreases |events|
  {
    if events == [] then p == p' && guards == guards'
    else match events[0]
    case Connected(g) => Run(Connect(p, g).0, guards + multiset{g}, events[1..], p', guards')
    case Dropped(g) => g in guards && Run(Disconnect(p, g).0, guards - multiset{g}, events[1..], p', guards')
  }

  lemma {:induction false} RunCounts(p: Presence, guards: multiset<Guard>, events: seq<Event>, p': Presence, guards': multiset<Guard>)
    requires Counts(p, guards) && Run(p, guards, events, p', guards')
    ensures Counts(p', guards')
    decreases |events|
  {
    hide Counts;
    if events != [] {
      match events[0]
      case Connected(g) =>
        ConnectCounts(p, guards, g);
        RunCounts(Connect(p, g).0, guards + multiset{g}, events[1..], p', guards');
      case Dropped(g) =>
        DisconnectCounts(p, guards, g);
        RunCounts(Disconnect(p, g).0, guards - multiset{g}, events[1..], p', guards');
    }
  }

  /** A window is listed iff it has a guard, and its holders are those of its guards. */
  lemma ViewIsOfGuards(p: Presence, guards: multiset<Guard>, w: WindowId, tag: HolderTag)
    requires Counts(p, guards)
    ensures w in View(p) <==> exists h :: Guard(w, h) in guards
    ensures w in View(p) && tag in View(p)[w] <==> Guard(w, Some(tag)) in guards
  {
    assert guards[Guard(w, Some(tag))] == CountOf(p, Guard(w, Some(tag)));
    if w in p {
      if p[w].untagged > 0 {
        assert guards[Guard(w, None)] == CountOf(p, Guard(w, None));
      } else {
        assert p[w].tagged != map[];
        var t :| t in p[w].tagged;
        assert guards[Guard(w, Some(t))] == CountOf(p, Guard(w, Some(t)));
      }
    } else {
      forall h
        ensures Guard(w, h) !in guards
      {
        assert guards[Guard(w, h)] == CountOf(p, Guard(w, h));
      }
    }
  }

  /** In every reachable state a window is connected iff it has a guard, and its holders are those of its guards. */
  lemma ReachableView(events: seq<Event>, p: Presence, guards: multiset<Guard>, w: WindowId, tag: HolderTag)
    requires Run(map[], multiset{}, events, p, guards)
    ensures w in View(p) <==> exists h :: Guard(w, h) in guards
    ensures w in View(p) && tag in View(p)[w] <==> Guard(w, Some(tag)) in guards
  {
    RunCounts(map[], multiset{}, events, p, guards);
    hide Run;
    ViewIsOfGuards(p, guards, w, tag);
  }

  // ---- The map as it is coded ------------------------------------------------------------------------

  class WindowPresence {
    var inner: Presence
    ghost var guards: multiset<Guard>

    ghost predicate Valid()
      reads this
    {
      Counts(inner, guards)
    }

    constructor ()
      ensures Valid() && guards == multiset{} && inner == map[]
    {
      inner, guards := map[], multiset{};
    }

    /** The windows with a live socket. */
    method ConnectedIds() returns (ids: set<WindowId>)
      requires Valid()
      ensures forall w :: w in ids <==> exists h :: Guard(w, h) in guards
    {
      forall w
        ensures w in inner <==> exists h :: Guard(w, h) in guards
      {
        ViewIsOfGuards(inner, guards, w, "");
      }
      hide Counts;
      ids := inner.Keys;
    }

    /** The holders of a window's live sockets, or `None` when it has no socket. */
    method Holders(id: WindowId) returns (holders: Option<set<HolderTag>>)
      requires Valid()
      ensures holders.Some? <==> exists h :: Guard(id, h) in guards
      ensures holders.Some? ==> forall tag :: tag in holders.value <==> Guard(id, Some(tag)) in guards
    {
      forall tag
        ensures id in View(inner) <==> exists h :: Guard(id, h) in guards
        ensures id in View(inner) && tag in View(inner)[id] <==> Guard(id, Some(tag)) in guards
      {
        ViewIsOfGuards(inner, guards, id, tag);
      }
      ViewIsOfGuards(inner, guards, id, "");
      hide Counts;
      holders := if id in inner then Some(inner[id].tagged.Keys) else None;
    }

    /** Register a socket; the caller fires the returned signals. */
    method ConnectSocket(id: WindowId, holder: Option<HolderTag>) returns (signals: Signals)
      requires Valid()
      modifies this
      ensures Valid() && guards == old(guards) + multiset{Guard(id, holder)}
      ensures (inner, signals) == Connect(old(inner), Guard(id, holder))
      ensures signals.changed <==> View(inner) != View(old(inner))
      ensures signals.hooked == if inner.Keys != old(inner).Keys then Some(id) else None
    {
      hide Counts;
      ConnectCounts(inner, guards, Guard(id, holder));
      ConnectSignals(inner, guards, Guard(id, holder));
      var newly := id !in inner;
      var sockets := if newly then NO_SOCKETS else inner[id];
      var changed := newly;
      match holder {
        case Some(tag) =>
          var count := 1;
          if tag in sockets.tagged {
            count := sockets.tagged[tag] + 1;
          }
          sockets := sockets.(tagged := sockets.tagged[tag := count]);
          changed := newly || count == 1;
        case None =>
          sockets := sockets.(untagged := sockets.untagged + 1);
      }
      inner := inner[id := sockets];
      guards := guards + multiset{Guard(id, holder)};
      signals := Signals(changed, if newly then Some(id) else None);
    }

    /** A guard's drop; the window of an outstanding guard is always listed. */
    method DropSocket(id: WindowId, holder: Option<HolderTag>) returns (signals: Signals)
      requires Valid() && Guard(id, holder) in guards
      modifies this
      ensures Valid() && guards == old(guards) - multiset{Guard(id, holder)}
      ensures (inner, signals) == Disconnect(old(inner), Guard(id, holder))
      ensures signals.changed <==> View(inner) != View(old(inner))
      ensures signals.hooked == if inner.Keys != old(inner).Keys then Some(id) else None
    {
      hide Counts;
      GuardIsCounted(inner, guards, Guard(id, holder));
      DisconnectCounts(inner, guards, Guard(id, holder));
      DisconnectSignals(inner, guards, Guard(id, holder));
      guards := guards - multiset{Guard(id, holder)};
      var sockets := inner[id];
      var holderLeft := false;
      match holder {
        case Some(tag) =>
          if tag in sockets.tagged {
            var count := SaturatingDec(sockets.tagged[tag]);
            sockets := sockets.(tagged := sockets.tagged[tag := count]);
            holderLeft := count == 0;
          }
          if holderLeft {
            sockets := sockets.(tagged := sockets.tagged - {tag});
          }
        case None =>
          sockets := sockets.(untagged := SaturatingDec(sockets.untagged));
      }
      var windowLeft := sockets.untagged == 0 && sockets.tagged == map[];
      inner := if windowLeft then inner - {id} else inner[id := sockets];
      assert sockets == Release(old(inner)[id], holder).0 by {
        assert holder.Some? && holderLeft ==>
          sockets.tagged == old(inner)[id].tagged - {holder.value};
      }
      signals := Signals(holderLeft || windowLeft, if windowLeft then Some(id) else None);
    }
  }
}
