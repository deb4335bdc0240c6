/** Hook settings: groups of handlers, some of which are our own. */
module HookGroups {
  import opened Basics

  type Owner = Json -> bool

  predicate WellFormed(group: Json) {
    group.JObject? && "hooks" in group.fields && group.fields["hooks"].JList?
  }

  function Handlers(group: Json): seq<Json>
    requires WellFormed(group)
  {
    group.fields["hooks"].items
  }

  function WithHandlers(group: Json, handlers: seq<Json>): Json
    requires WellFormed(group)
  {
    JObject(group.fields["hooks" := JList(handlers)])
  }

  /** A group that says more than which tools its handlers are for. */
  predicate HasExtras(group: Json)
    requires WellFormed(group)
  {
    group.fields.Keys - {"matcher", "hooks"} != {}
  }

  function Retained(owned: Owner, handlers: seq<Json>): (r: seq<Json>)
    ensures |r| <= |handlers|
  {
    if handlers == [] then [] else (if owned(handlers[0]) then [] else [handlers[0]]) + Retained(owned, handlers[1..])
  }

  function OwnedCount(owned: Owner, groups: seq<Json>): nat {
    if groups == [] then 0 else
    (if WellFormed(groups[0]) then |Handlers(groups[0])| - |Retained(owned, Handlers(groups[0]))| else 0)
    + OwnedCount(owned, groups[1..])
  }

  /** What the check of a registration asks for. */
  predicate Registered(owned: Owner, entry: Json, groups: seq<Json>) {
    OwnedCount(owned, groups) == 1 && entry in groups
  }

  /** The settings entry of an event: a plain group with one handler, our own. */
  predicate IsEntry(owned: Owner, entry: Json) {
    WellFormed(entry) && |Handlers(entry)| == 1 && owned(Handlers(entry)[0]) && !HasExtras(entry)
  }

  /** A group with extra keys and none but our own handlers. */
  predicate Sealed(owned: Owner, group: Json) {
    WellFormed(group) && HasExtras(group) && Handlers(group) != [] && Retained(owned, Handlers(group)) == []
  }

  /** What a group becomes; `keepSealed` tells the two installers apart. */
  function Settled(owned: Owner, group: Json, keepSealed: bool): seq<Json> {
    if !WellFormed(group) || Handlers(group) == [] then [group]
    else if Retained(owned, Handlers(group)) != [] then [WithHandlers(group, Retained(owned, Handlers(group)))]
    else if !HasExtras(group) then []
    else if keepSealed then [group] else [WithHandlers(group, [])]
  }

  function SettledAll(owned: Owner, groups: seq<Json>, keepSealed: bool): seq<Json> {
    if groups == [] then [] else Settled(owned, groups[0], keepSealed) + SettledAll(owned, groups[1..], keepSealed)
  }

  function Reconciled(owned: Owner, entry: Json, groups: seq<Json>, keepSealed: bool): seq<Json> {
    if Registered(owned, entry, groups) then groups else SettledAll(owned, groups, keepSealed) + [entry]
  }

  // ---------------------------------------------------------------- the loops

  lemma {:induction false} RetainedAppend(owned: Owner, a: seq<Json>, b: seq<Json>)
    ensures Retained(owned, a + b) == Retained(owned, a) + Retained(owned, b)
  {
    if a == [] {
      assert a + b == b;
    } else {
      assert (a + b)[1..] == a[1..] + b;
      RetainedAppend(owned, a[1..], b);
    }
  }

  lemma {:induction false} OwnedCountAppend(owned: Owner, a: seq<Json>, b: seq<Json>)
    ensures OwnedCount(owned, a + b) == OwnedCount(owned, a) + OwnedCount(owned, b)
  {
    if a == [] {
      assert a + b == b;
    } else {
      assert (a + b)[1..] == a[1..] + b;
      OwnedCountAppend(owned, a[1..], b);
    }
  }

  /** `_owned_handler_count` */
  method CountOwned(owned: Owner, groups: seq<Json>) returns (count: nat)
    ensures count == OwnedCount(owned, groups)
  {
    count := 0;
    for i := 0 to |groups|
      invariant count == OwnedCount(owned, groups[..i])
    {
      assert groups[..i + 1] == groups[..i] + [groups[i]];
      OwnedCountAppend(owned, groups[..i], [groups[i]]);
      if !WellFormed(groups[i]) { continue; }
      var handlers := Handlers(groups[i]);
      for j := 0 to |handlers|
        invariant count == OwnedCount(owned, groups[..i]) + j - |Retained(owned, handlers[..j])|
      {
        assert handlers[..j + 1] == handlers[..j] + [handlers[j]];
        RetainedAppend(owned, handlers[..j], [handlers[j]]);
        if owned(handlers[j]) { count := count + 1; }
      }
      assert handlers[..|handlers|] == handlers;
    }
    assert groups[..|groups|] == groups;
  }

  lemma {:induction false} SettledAllAppend(owned: Owner, a: seq<Json>, b: seq<Json>, keepSealed: bool)
    ensures SettledAll(owned, a + b, keepSealed) == SettledAll(owned, a, keepSealed) + SettledAll(owned, b, keepSealed)
  {
    if a == [] {
      assert a + b == b;
    } else {
      assert (a + b)[1..] == a[1..] + b;
      SettledAllAppend(owned, a[1..], b, keepSealed);
    }
  }

  method Retain(owned: Owner, handlers: seq<Json>) returns (retained: seq<Json>)
    ensures retained == Retained(owned, handlers)
  {
    retained := [];
    for i := 0 to |handlers|
      invariant retained == Retained(owned, handlers[..i])
    {
      assert handlers[..i + 1] == handlers[..i] + [handlers[i]];
      RetainedAppend(owned, handlers[..i], [handlers[i]]);
      if !owned(handlers[i]) { retained := retained + [handlers[i]]; }
    }
    assert handlers[..|handlers|] == handlers;
  }

  /** What the loop appends for one group. */
  method SettleGroup(owned: Owner, group: Json, keepSealed: bool) returns (settled: seq<Json>)
    ensures settled == Settled(owned, group, keepSealed)
  {
    if !WellFormed(group) { return [group]; }
    var handlers := Handlers(group);
    var retained := Retain(owned, handlers);
    if retained != [] {
      settled := [WithHandlers(group, retained)];
    } else if |retained| == |handlers| {
      settled := [group];
    } else if HasExtras(group) {
      settled := [if keepSealed then group else WithHandlers(group, [])];
    } else {
      settled := [];
    }
  }

  /** The reconciling loop over the groups of one event. */
  method Reconcile(owned: Owner, entry: Json, groups: seq<Json>, keepSealed: bool)
    returns (reconciled: seq<Json>, changed: bool, found: bool)
    ensures reconciled == Reconciled(owned, entry, groups, keepSealed)
    ensures changed <==> !Registered(owned, entry, groups)
    ensures found <==> OwnedCount(owned, groups) > 0
  {
    var count := CountOwned(owned, groups);
    found := count > 0;
    if count == 1 && entry in groups { return groups, false, found; }
    reconciled := SettleGroups(owned, groups, keepSealed);
    reconciled := reconciled + [entry];
    changed := true;
  }

  method SettleGroups(owned: Owner, groups: seq<Json>, keepSealed: bool) returns (settled: seq<Json>)
    ensures settled == SettledAll(owned, groups, keepSealed)
  {
    settled := [];
    for i := 0 to |groups|
      invariant settled == SettledAll(owned, groups[..i], keepSealed)
    {
      assert groups[..i + 1] == groups[..i] + [groups[i]];
      SettledAllAppend(owned, groups[..i], [groups[i]], keepSealed);
      SettledAllOfOne(owned, groups[i], keepSealed);
      var one := SettleGroup(owned, groups[i], keepSealed);
      settled := settled + one;
    }
    assert groups[..|groups|] == groups;
  }

  lemma SettledAllOfOne(owned: Owner, group: Json, keepSealed: bool)
    ensures SettledAll(owned, [group], keepSealed) == Settled(owned, group, keepSealed)
  {
    assert [group][1..] == [];
  }

  // ---------------------------------------------------------------- what is conserved

  /** The handlers of a group that are not ours, each with the other keys of the group. */
  function ForeignIn(owned: Owner, group: Json): seq<(map<string, Json>, Json)> {
    if WellFormed(group) then Tagged(group.fields - {"hooks"}, Retained(owned, Handlers(group))) else []
  }

  /** Every handler that is not ours, in order. */
  function ForeignHandlers(owned: Owner, groups: seq<Json>): seq<(map<string, Json>, Json)> {
    if groups == [] then [] else ForeignIn(owned, groups[0]) + ForeignHandlers(owned, groups[1..])
  }

  function Tagged(keys: map<string, Json>, handlers: seq<Json>): seq<(map<string, Json>, Json)> {
    seq(|handlers|, i requires 0 <= i < |handlers| => (keys, handlers[i]))
  }

  function Malformed(groups: seq<Json>): seq<Json> {
    if groups == [] then [] else (if WellFormed(groups[0]) then [] else [groups[0]]) + Malformed(groups[1..])
  }

  lemma {:induction false} RetainedTwice(owned: Owner, handlers: seq<Json>)
    ensures Retained(owned, Retained(owned, handlers)) == Retained(owned, handlers)
  {
    if handlers != [] {
      RetainedTwice(owned, handlers[1..]);
      var rest := Retained(owned, handlers[1..]);
      assert ([handlers[0]] + rest)[1..] == rest && [] + rest == rest;
    }
  }

  lemma {:induction false} MalformedAppend(a: seq<Json>, b: seq<Json>)
    ensures Malformed(a + b) == Malformed(a) + Malformed(b)
  {
    if a == [] {
      assert a + b == b;
    } else {
      assert (a + b)[1..] == a[1..] + b;
      MalformedAppend(a[1..], b);
    }
  }

  lemma {:induction false} ForeignAppend(owned: Owner, a: seq<Json>, b: seq<Json>)
    ensures ForeignHandlers(owned, a + b) == ForeignHandlers(owned, a) + ForeignHandlers(owned, b)
  {
    if a == [] {
      assert a + b == b;
    } else {
      assert (a + b)[1..] == a[1..] + b;
      ForeignAppend(owned, a[1..], b);
      var x, y, z := ForeignIn(owned, a[0]), ForeignHandlers(owned, a[1..]), ForeignHandlers(owned, b);
      assert x + (y + z) == (x + y) + z;
    }
  }

  lemma SettledKeepsForeign(owned: Owner, group: Json, keepSealed: bool)
    ensures ForeignHandlers(owned, Settled(owned, group, keepSealed)) == ForeignHandlers(owned, [group])
    ensures Malformed(Settled(owned, group, keepSealed)) == Malformed([group])
  {
    if WellFormed(group) {
      var retained := Retained(owned, Handlers(group));
      RetainedTwice(owned, Handlers(group));
      assert WithHandlers(group, retained).fields - {"hooks"} == group.fields - {"hooks"};
      assert Tagged(group.fields - {"hooks"}, []) == [];
      OneGroup(owned, group);
      if retained != [] { OneGroup(owned, WithHandlers(group, retained)); }
      if retained == [] { OneGroup(owned, WithHandlers(group, [])); }
    }
  }

  lemma OneGroup(owned: Owner, group: Json)
    requires WellFormed(group)
    ensures ForeignHandlers(owned, [group]) == Tagged(group.fields - {"hooks"}, Retained(owned, Handlers(group)))
    ensures Malformed([group]) == []
  {
    assert [group][1..] == [];
  }

  lemma {:induction false} SettledAllKeepsForeign(owned: Owner, groups: seq<Json>, keepSealed: bool)
    ensures ForeignHandlers(owned, SettledAll(owned, groups, keepSealed)) == ForeignHandlers(owned, groups)
    ensures Malformed(SettledAll(owned, groups, keepSealed)) == Malformed(groups)
  {
    if groups != [] {
      SettledAllKeepsForeign(owned, groups[1..], keepSealed);
      SettledKeepsForeign(owned, groups[0], keepSealed);
      ForeignAppend(owned, Settled(owned, groups[0], keepSealed), SettledAll(owned, groups[1..], keepSealed));
      MalformedAppend(Settled(owned, groups[0], keepSealed), SettledAll(owned, groups[1..], keepSealed));
      assert groups == [groups[0]] + groups[1..];
      ForeignAppend(owned, [groups[0]], groups[1..]);
      MalformedAppend([groups[0]], groups[1..]);
    }
  }

  /** Reconciling keeps every foreign handler and malformed group, in order and with its group's keys. */
  lemma ReconciledKeepsForeign(owned: Owner, entry: Json, groups: seq<Json>, keepSealed: bool)
    requires IsEntry(owned, entry)
    ensures ForeignHandlers(owned, Reconciled(owned, entry, groups, keepSealed)) == ForeignHandlers(owned, groups)
    ensures Malformed(Reconciled(owned, entry, groups, keepSealed)) == Malformed(groups)
  {
    SettledAllKeepsForeign(owned, groups, keepSealed);
    ForeignAppend(owned, SettledAll(owned, groups, keepSealed), [entry]);
    MalformedAppend(SettledAll(owned, groups, keepSealed), [entry]);
    OneGroup(owned, entry);
    assert Handlers(entry)[1..] == [];
  }

  // ---------------------------------------------------------------- in terms of groups and handlers

  /** The retained handlers are those that are not ours, each as often as before. */
  lemma {:induction false} RetainedAre(owned: Owner, handlers: seq<Json>)
    ensures forall h :: multiset(Retained(owned, handlers))[h] == if owned(h) then 0 else multiset(handlers)[h]
  {
    if handlers != [] {
      RetainedAre(owned, handlers[1..]);
      assert handlers == [handlers[0]] + handlers[1..];
    }
  }

  lemma {:induction false} RetainedInOrder(owned: Owner, handlers: seq<Json>)
    ensures InOrder(handlers, Retained(owned, handlers))
  {
    if handlers != [] {
      RetainedInOrder(owned, handlers[1..]);
      var rest := Retained(owned, handlers[1..]);
      assert ([handlers[0]] + rest)[1..] == rest && [] + rest == rest;
    }
  }

  /** A group with this handler among others, and with these other keys. */
  predicate Holds(group: Json, keys: map<string, Json>, h: Json) {
    && group.JObject? && "hooks" in group.fields && group.fields["hooks"].JList?
    && group.fields - {"hooks"} == keys && h in group.fields["hooks"].items
  }

  lemma RetainedIn(owned: Owner, handlers: seq<Json>, h: Json)
    ensures h in Retained(owned, handlers) <==> h in handlers && !owned(h)
  {
    RetainedAre(owned, handlers);
    assert h in Retained(owned, handlers) <==> multiset(Retained(owned, handlers))[h] > 0;
    assert h in handlers <==> multiset(handlers)[h] > 0;
  }

  lemma ForeignInGroup(owned: Owner, g: Json, keys: map<string, Json>, h: Json)
    ensures (keys, h) in ForeignIn(owned, g) <==> Holds(g, keys, h) && !owned(h)
  {
    if WellFormed(g) {
      RetainedIn(owned, Handlers(g), h);
      var retained, tagged := Retained(owned, Handlers(g)), ForeignIn(owned, g);
      assert forall i | 0 <= i < |retained| :: tagged[i] == (g.fields - {"hooks"}, retained[i]);
      if h in retained && keys == g.fields - {"hooks"} {
        var i :| 0 <= i < |retained| && retained[i] == h;
        assert tagged[i] in tagged;
      }
    }
  }

  predicate HeldIn(groups: seq<Json>, keys: map<string, Json>, h: Json) {
    exists g | g in groups :: Holds(g, keys, h)
  }

  lemma HeldInFirst(groups: seq<Json>, keys: map<string, Json>, h: Json)
    requires groups != []
    ensures HeldIn(groups, keys, h) == (Holds(groups[0], keys, h) || HeldIn(groups[1..], keys, h))
  {
    assert groups == [groups[0]] + groups[1..];
  }

  lemma {:induction false} ForeignHandlersAre(owned: Owner, groups: seq<Json>, keys: map<string, Json>, h: Json)
    ensures ((keys, h) in ForeignHandlers(owned, groups)) == (!owned(h) && HeldIn(groups, keys, h))
  {
    if groups != [] {
      ForeignHandlersAre(owned, groups[1..], keys, h);
      ForeignInGroup(owned, groups[0], keys, h);
      HeldInFirst(groups, keys, h);
    }
  }

  lemma {:induction false} MalformedAre(groups: seq<Json>, g: Json)
    ensures g in Malformed(groups) <==>
            g in groups && !(g.JObject? && "hooks" in g.fields && g.fields["hooks"].JList?)
  {
    if groups != [] {
      MalformedAre(groups[1..], g);
      assert groups == [groups[0]] + groups[1..];
    }
  }

  lemma {:induction false} OursAre(owned: Owner, groups: seq<Json>)
    ensures OwnedCount(owned, groups) > 0 <==> exists g, keys, h :: g in groups && owned(h) && Holds(g, keys, h)
  {
    if groups != [] {
      OursAre(owned, groups[1..]);
      assert groups == [groups[0]] + groups[1..];
      OursInGroup(owned, groups[0]);
    }
  }

  lemma {:induction false} FewerRetained(owned: Owner, handlers: seq<Json>)
    ensures |Retained(owned, handlers)| < |handlers| <==> exists h | h in handlers :: owned(h)
  {
    if handlers != [] {
      FewerRetained(owned, handlers[1..]);
      assert handlers == [handlers[0]] + handlers[1..];
    }
  }

  lemma OursInGroup(owned: Owner, g: Json)
    ensures (WellFormed(g) && |Retained(owned, Handlers(g))| < |Handlers(g)|) <==>
            exists keys, h :: owned(h) && Holds(g, keys, h)
  {
    if WellFormed(g) {
      FewerRetained(owned, Handlers(g));
      if h :| h in Handlers(g) && owned(h) { assert Holds(g, g.fields - {"hooks"}, h); }
    }
  }

  /** A handler that is not ours is in a group with the same other keys before and after; malformed groups stay. */
  lemma OthersStay(owned: Owner, entry: Json, groups: seq<Json>, keepSealed: bool, keys: map<string, Json>, h: Json)
    requires IsEntry(owned, entry) && !owned(h)
    ensures var after := Reconciled(owned, entry, groups, keepSealed);
            && (HeldIn(groups, keys, h) <==> HeldIn(after, keys, h))
            && forall g | g !in after && g in groups :: g.JObject? && "hooks" in g.fields && g.fields["hooks"].JList?
  {
    var after := Reconciled(owned, entry, groups, keepSealed);
    ReconciledKeepsForeign(owned, entry, groups, keepSealed);
    ForeignHandlersAre(owned, groups, keys, h);
    ForeignHandlersAre(owned, after, keys, h);
    forall g | g !in after && g in groups ensures g.JObject? && "hooks" in g.fields && g.fields["hooks"].JList? {
      MalformedAre(groups, g);
      MalformedAre(after, g);
    }
  }

  // ---------------------------------------------------------------- what is registered

  lemma OneGroupCount(owned: Owner, group: Json)
    ensures OwnedCount(owned, [group]) ==
            if WellFormed(group) then |Handlers(group)| - |Retained(owned, Handlers(group))| else 0
  {
    assert [group][1..] == [];
  }

  lemma SettledCount(owned: Owner, group: Json, keepSealed: bool)
    ensures OwnedCount(owned, Settled(owned, group, keepSealed)) ==
            if keepSealed && Sealed(owned, group) then |Handlers(group)| else 0
  {
    if WellFormed(group) {
      var retained := Retained(owned, Handlers(group));
      RetainedTwice(owned, Handlers(group));
      OneGroupCount(owned, group);
      OneGroupCount(owned, WithHandlers(group, retained));
    } else {
      OneGroupCount(owned, group);
    }
  }

  lemma {:induction false} SettledAllCount(owned: Owner, groups: seq<Json>, keepSealed: bool)
    ensures OwnedCount(owned, SettledAll(owned, groups, keepSealed)) == 0
            <==> !keepSealed || forall g | g in groups :: !Sealed(owned, g)
  {
    if groups != [] {
      SettledAllCount(owned, groups[1..], keepSealed);
      SettledCount(owned, groups[0], keepSealed);
      OwnedCountAppend(owned, Settled(owned, groups[0], keepSealed), SettledAll(owned, groups[1..], keepSealed));
      assert groups == [groups[0]] + groups[1..];
    }
  }

  lemma EntryCount(owned: Owner, entry: Json)
    requires IsEntry(owned, entry)
    ensures OwnedCount(owned, [entry]) == 1
  {
    OneGroupCount(owned, entry);
    assert Handlers(entry)[1..] == [];
  }

  lemma {:induction false} SealedCounts(owned: Owner, groups: seq<Json>, g: Json)
    requires g in groups && WellFormed(g)
    ensures OwnedCount(owned, groups) >= |Handlers(g)| - |Retained(owned, Handlers(g))|
  {
    if groups[0] != g { SealedCounts(owned, groups[1..], g); }
  }

  /** A registered event has no sealed group: that group would hold a second handler of ours. */
  lemma {:induction false} RegisteredHasNoSealed(owned: Owner, entry: Json, groups: seq<Json>)
    requires IsEntry(owned, entry) && Registered(owned, entry, groups)
    ensures forall g | g in groups :: !Sealed(owned, g)
  {
    forall g | g in groups && Sealed(owned, g) ensures false {
      var i :| 0 <= i < |groups| && groups[i] == entry;
      assert groups == groups[..i] + ([entry] + groups[i + 1..]);
      OwnedCountAppend(owned, groups[..i], [entry] + groups[i + 1..]);
      OwnedCountAppend(owned, [entry], groups[i + 1..]);
      EntryCount(owned, entry);
      if g in groups[..i] { SealedCounts(owned, groups[..i], g); }
      if g in groups[i + 1..] { SealedCounts(owned, groups[i + 1..], g); }
    }
  }

  /**
   After reconciling, an event is registered: exactly one handler of ours, in a group equal to the entry.
   An installer that keeps sealed groups as they are gets there exactly when there is no such group.
   */
  lemma ReconciledIsRegistered(owned: Owner, entry: Json, groups: seq<Json>, keepSealed: bool)
    requires IsEntry(owned, entry)
    ensures Registered(owned, entry, Reconciled(owned, entry, groups, keepSealed))
            <==> !keepSealed || forall g | g in groups :: !Sealed(owned, g)
  {
    if Registered(owned, entry, groups) {
      RegisteredHasNoSealed(owned, entry, groups);
    } else {
      SettledAllCount(owned, groups, keepSealed);
      OwnedCountAppend(owned, SettledAll(owned, groups, keepSealed), [entry]);
      EntryCount(owned, entry);
    }
  }

  // ---------------------------------------------------------------- once is enough

  lemma SettledTwice(owned: Owner, group: Json, keepSealed: bool)
    ensures SettledAll(owned, Settled(owned, group, keepSealed), keepSealed) == Settled(owned, group, keepSealed)
  {
    var settled := Settled(owned, group, keepSealed);
    if settled != [] {
      assert settled == [settled[0]] && settled[1..] == [];
      if WellFormed(group) {
        RetainedTwice(owned, Handlers(group));
        var retained := Retained(owned, Handlers(group));
        var h := WithHandlers(group, retained);
        assert WithHandlers(h, retained) == h;
      }
      assert Settled(owned, settled[0], keepSealed) == settled;
    }
  }

  lemma {:induction false} SettledAllTwice(owned: Owner, groups: seq<Json>, keepSealed: bool)
    ensures var once := SettledAll(owned, groups, keepSealed);
            SettledAll(owned, once, keepSealed) == once
  {
    if groups != [] {
      SettledAllTwice(owned, groups[1..], keepSealed);
      SettledTwice(owned, groups[0], keepSealed);
      SettledAllAppend(owned, Settled(owned, groups[0], keepSealed), SettledAll(owned, groups[1..], keepSealed),
                       keepSealed);
    }
  }

  /** A second reconciliation changes nothing, even where the first did not register the event. */
  lemma ReconciledTwice(owned: Owner, entry: Json, groups: seq<Json>, keepSealed: bool)
    requires IsEntry(owned, entry)
    ensures var once := Reconciled(owned, entry, groups, keepSealed);
            Reconciled(owned, entry, once, keepSealed) == once
  {
    var once := Reconciled(owned, entry, groups, keepSealed);
    if !Registered(owned, entry, once) {
      var settled := SettledAll(owned, groups, keepSealed);
      SettledAllTwice(owned, groups, keepSealed);
      SettledAllAppend(owned, settled, [entry], keepSealed);
      assert [entry][1..] == [] && Handlers(entry)[1..] == [];
      assert SettledAll(owned, [entry], keepSealed) == [];
    }
  }
}
