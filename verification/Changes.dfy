/**
 Changes to a target that are applied, reverted and tracked
 (pluginkit/change.go). What the apply and revert callbacks answer is given
 with each call; every callback call is recorded in a history.
 */
module Changes {
  /** An arbitrary Go value. */
  datatype Any = Nil | Value(id: nat)

  /** One call of `applyFunc` or of `revertFunc`: whether it succeeded, and what it returned or was given. */
  datatype Event = ApplyCalled(ok: bool, value: Any) | RevertCalled(ok: bool, data: Any)

  predicate DidApply(e: Event)
  {
    e.ApplyCalled? && e.ok
  }

  predicate DidRevert(e: Event)
  {
    e.RevertCalled? && e.ok
  }

  /** What `applyFunc` answers: an object, and no error. */
  datatype Answer = Answer(value: Any, ok: bool)

  /** The fields of a change. `error` tells that one was recorded. */
  datatype ChangeState = ChangeState(
    targetName: string, description: string, hasApply: bool, hasRevert: bool, targetObject: Any,
    applied: bool, reverted: bool, error: bool, corrupted: bool, history: seq<Event>)

  predicate Fresh(c: ChangeState)
  {
    !c.applied && !c.reverted && !c.error && !c.corrupted && c.history == []
  }

  predicate Prechecked(c: ChangeState)
  {
    c.hasApply && c.hasRevert && c.targetName != "" && c.description != "" && !c.error
  }

  /** The target is thought to be changed. */
  predicate Standing(c: ChangeState)
  {
    c.applied && !c.reverted
  }

  /** Whether applying would call `applyFunc`. */
  predicate Calls(c: ChangeState)
  {
    Prechecked(c) && !Standing(c)
  }

  function AfterApply(c: ChangeState, targetName: string, answer: Answer): ChangeState
  {
    if !Prechecked(c) then c.(error := true)
    else if Standing(c) then c
    else
      var called := c.(targetName := targetName, targetObject := answer.value,
        history := c.history + [ApplyCalled(answer.ok, answer.value)]);
      if answer.ok then called.(applied := true, reverted := false)
      else called.(corrupted := true, error := true)
  }

  function AfterRevert(c: ChangeState, ok: bool): ChangeState
  {
    if !c.applied then c
    else if !Prechecked(c) then c.(error := true)
    else
      var called := c.(history := c.history + [RevertCalled(ok, c.targetObject)]);
      if ok then called.(reverted := true) else called.(error := true, corrupted := true)
  }

  // ---------------------------------------------------------------------
  // The objects

  class Change {
    var targetName: string
    var description: string
    var hasApply: bool
    var hasRevert: bool
    var targetObject: Any
    var applied: bool
    var reverted: bool
    var error: bool
    var corrupted: bool
    ghost var history: seq<Event>

    ghost function State(): ChangeState
      reads this
    {
      ChangeState(targetName, description, hasApply, hasRevert, targetObject, applied, reverted, error, corrupted,
        history)
    }

    constructor (c: ChangeState)
      ensures State() == c
    {
      targetName, description, hasApply, hasRevert := c.targetName, c.description, c.hasApply, c.hasRevert;
      targetObject, applied, reverted, error, corrupted := c.targetObject, c.applied, c.reverted, c.error, c.corrupted;
      history := c.history;
    }

    method Precheck() returns (failed: bool)
      ensures failed <==> !Prechecked(State())
    {
      if !hasApply || !hasRevert {
        return true;
      }
      if targetName == "" || description == "" {
        return true;
      }
      if error {
        return true;
      }
      failed := false;
    }

    method Apply(name: string, answer: Answer) returns (success: bool, target: Any)
      modifies this
      ensures State() == AfterApply(old(State()), name, answer)
      ensures success <==> Standing(State()) && !State().error
      ensures target == targetObject
    {
      var failed := Precheck();
      if failed {
        error := true;
        return false, targetObject;
      }
      if applied && !reverted {
        return true, targetObject;
      }
      targetName := name;
      targetObject := answer.value;
      history := history + [ApplyCalled(answer.ok, answer.value)];
      if !answer.ok {
        corrupted := true;
        error := true;
        return false, targetObject;
      }
      applied := true;
      reverted := false;
      return true, targetObject;
    }

    method Revert(ok: bool)
      modifies this
      ensures State() == AfterRevert(old(State()), ok)
    {
      if !applied {
        return;
      }
      var failed := Precheck();
      if failed {
        error := true;
        return;
      }
      history := history + [RevertCalled(ok, targetObject)];
      if !ok {
        error := true;
        corrupted := true;
        return;
      }
      reverted := true;
    }
  }

  // ---------------------------------------------------------------------
  // The manager

  datatype Manager = Manager(changes: map<string, ChangeState>, allowed: bool, corrupted: bool)

  /** The calls a step can make on the manager, with the answers of the callbacks they reach. */
  datatype Call =
    | Allow
    | Add(name: string, change: ChangeState)
    | Apply(name: string, target: string, answer: Answer)
    | Revert(name: string, ok: bool)
    | RevertAll(oks: string -> bool)

  ghost predicate AnyCorrupted(changes: map<string, ChangeState>)
  {
    exists k :: k in changes && changes[k].corrupted
  }

  function Updated(m: Manager, name: string, c: ChangeState): Manager
  {
    m.(changes := m.changes[name := c], corrupted := m.corrupted || c.corrupted)
  }

  /** Every change reverted once. No order is mentioned: the visits do not interact. */
  ghost function AllReverted(m: Manager, oks: string -> bool): Manager
  {
    var changes := map k | k in m.changes :: AfterRevert(m.changes[k], oks(k));
    m.(changes := changes, corrupted := m.corrupted || AnyCorrupted(changes))
  }

  /** Half way through, when these have still to be reverted. */
  ghost function Midway(m: Manager, pending: set<string>, oks: string -> bool): Manager
  {
    var changes := map k | k in m.changes :: if k in pending then m.changes[k] else AfterRevert(m.changes[k], oks(k));
    m.(changes := changes, corrupted := m.corrupted || CorruptedOutside(changes, pending))
  }

  ghost predicate CorruptedOutside(changes: map<string, ChangeState>, pending: set<string>)
  {
    exists k :: k in changes && k !in pending && changes[k].corrupted
  }

  lemma MidwayStep(m: Manager, pending: set<string>, oks: string -> bool, name: string)
    requires name in m.changes && name in pending
    ensures Midway(m, pending - {name}, oks) ==
      Updated(Midway(m, pending, oks), name, AfterRevert(m.changes[name], oks(name)))
    ensures name in Midway(m, pending, oks).changes && Midway(m, pending, oks).changes[name] == m.changes[name]
  {
    var before, after := Midway(m, pending, oks).changes, Midway(m, pending - {name}, oks).changes;
    assert after == before[name := AfterRevert(m.changes[name], oks(name))];
    if CorruptedOutside(before, pending) {
      var k :| k in before && k !in pending && before[k].corrupted;
      assert after[k].corrupted;
    }
    if after[name].corrupted {
      assert CorruptedOutside(after, pending - {name});
    }
    if CorruptedOutside(after, pending - {name}) {
      var k :| k in after && k !in pending - {name} && after[k].corrupted;
      assert k != name ==> before[k].corrupted;
    }
  }

  lemma MidwayEnds(m: Manager, oks: string -> bool)
    ensures Midway(m, m.changes.Keys, oks) == m && Midway(m, {}, oks) == AllReverted(m, oks)
  {
    assert Midway(m, m.changes.Keys, oks).changes == m.changes;
    assert Midway(m, {}, oks).changes == AllReverted(m, oks).changes;
  }

  ghost function Performed(m: Manager, call: Call): Manager
  {
    match call
    case Allow => m.(allowed := true)
    case Add(name, c) => m.(changes := m.changes[name := c])
    case Apply(name, target, answer) =>
      if m.allowed && name in m.changes then Updated(m, name, AfterApply(m.changes[name], target, answer)) else m
    case Revert(name, ok) =>
      if name in m.changes then Updated(m, name, AfterRevert(m.changes[name], ok)) else m
    case RevertAll(oks) => AllReverted(m, oks)
  }

  ghost function PerformedAll(m: Manager, calls: seq<Call>): Manager
  {
    if calls == [] then m else Performed(PerformedAll(m, calls[..|calls| - 1]), calls[|calls| - 1])
  }

  predicate OwnObjects(changes: map<string, Change>)
  {
    forall a, b :: a in changes && b in changes && a != b ==> changes[a] != changes[b]
  }

  lemma OneOfItsOwn(changes: map<string, Change>, name: string, change: Change)
    requires OwnObjects(changes) && change !in changes.Values
    ensures OwnObjects(changes[name := change]) && changes[name := change].Values - changes.Values <= {change}
  {
  }

  class ChangeManager {
    var changes: map<string, Change>
    var allowed: bool
    var corrupted: bool

    /** Each name has a change object of its own. */
    ghost predicate Valid()
      reads this`changes
    {
      OwnObjects(changes)
    }

    ghost function States(): map<string, ChangeState>
      reads this`changes, changes.Values
    {
      map k | k in changes :: changes[k].State()
    }

    ghost function View(): Manager
      reads this, changes.Values
    {
      Manager(States(), allowed, corrupted)
    }

    /** When one change has moved and the others have not. */
    lemma OnlyOne(before: map<string, ChangeState>, name: string)
      requires name in changes && before.Keys == changes.Keys
      requires forall k :: k in changes && k != name ==> changes[k].State() == before[k]
      ensures States() == before[name := States()[name]]
    {
    }

    /** When one change has been put in and the others are as they were. */
    lemma OnlyOneAdded(before: map<string, ChangeState>, name: string, keys: set<string>)
      requires name in changes && before.Keys == keys && changes.Keys == keys + {name}
      requires forall k :: k in keys && k != name ==> changes[k].State() == before[k]
      ensures States() == before[name := changes[name].State()]
    {
    }

    constructor ()
      ensures Valid() && View() == Manager(map[], false, false)
    {
      changes, allowed, corrupted := map[], false, false;
    }

    method AllowChanges()
      requires Valid()
      modifies this
      ensures Valid() && changes == old(changes) && View() == Performed(old(View()), Allow)
    {
      allowed := true;
    }

    /** The manager keeps a copy of its own. */
    method AddChange(name: string, c: ChangeState)
      requires Valid()
      modifies this
      ensures Valid() && fresh(changes.Values - old(changes.Values)) && View() == Performed(old(View()), Add(name, c))
    {
      ghost var before := States();
      var change := new Change(c);
      OneOfItsOwn(changes, name, change);
      changes := changes[name := change];
      OnlyOneAdded(before, name, old(changes.Keys));
    }

    method ApplyChange(name: string, targetName: string, answer: Answer) returns (success: bool, target: Any)
      requires Valid()
      modifies this`corrupted, changes.Values
      ensures View() == Performed(old(View()), Apply(name, targetName, answer))
      ensures success <==> allowed && name in changes && Standing(View().changes[name]) && !View().changes[name].error
      ensures target == if allowed && name in changes then View().changes[name].targetObject else Nil
    {
      if !allowed {
        return false, Nil;
      }
      if name !in changes {
        return false, Nil;
      }
      var change := changes[name];
      ghost var before := States();
      success, target := change.Apply(targetName, answer);
      OnlyOne(before, name);
      assert States()[name] == AfterApply(before[name], targetName, answer);
      if change.corrupted {
        corrupted := true;
      }
    }

    /** The visit of one change, which `Revert` and `RevertAll` share. */
    method RevertOne(name: string, ok: bool)
      requires Valid() && name in changes
      modifies this`corrupted, changes[name]
      ensures View() == Updated(old(View()), name, AfterRevert(old(View()).changes[name], ok))
    {
      var change := changes[name];
      ghost var before := States();
      change.Revert(ok);
      OnlyOne(before, name);
      if change.corrupted {
        corrupted := true;
      }
    }

    method RevertChange(name: string, ok: bool)
      requires Valid()
      modifies this`corrupted, changes.Values
      ensures View() == Performed(old(View()), Revert(name, ok))
    {
      if name !in changes {
        return;
      }
      RevertOne(name, ok);
    }

    /** Ranging over the map in whatever order. */
    method RevertEveryChange(oks: string -> bool)
      requires Valid()
      modifies this`corrupted, changes.Values
      ensures View() == Performed(old(View()), RevertAll(oks))
    {
      var pending := changes.Keys;
      ghost var was := View();
      assert pending == was.changes.Keys;
      MidwayEnds(was, oks);
      while pending != {}
        invariant pending <= was.changes.Keys && was.changes.Keys == changes.Keys && View() == Midway(was, pending, oks)
        decreases pending
      {
        var k :| k in pending;
        RevertNext(k, oks, was, pending);
        pending := pending - {k};
      }
    }

    /** One visit on the way from the first to the last. */
    method RevertNext(name: string, oks: string -> bool, ghost was: Manager, ghost pending: set<string>)
      requires Valid() && name in changes && name in was.changes && name in pending
      requires View() == Midway(was, pending, oks)
      modifies this`corrupted, changes[name]
      ensures View() == Midway(was, pending - {name}, oks)
    {
      MidwayStep(was, pending, oks, name);
      RevertOne(name, oks(name));
    }

    /** Whatever calls a step makes. */
    method Perform(calls: seq<Call>)
      requires Valid()
      modifies this, changes.Values
      ensures Valid() && fresh(changes.Values - old(changes.Values)) && View() == PerformedAll(old(View()), calls)
    {
      for i := 0 to |calls|
        invariant Valid() && fresh(changes.Values - old(changes.Values))
        invariant View() == PerformedAll(old(View()), calls[..i])
      {
        assert calls[..i + 1][..i] == calls[..i];
        match calls[i] {
          case Allow => AllowChanges();
          case Add(name, c) => AddChange(name, c);
          case Apply(name, target, answer) =>
            var _, _ := ApplyChange(name, target, answer);
          case Revert(name, ok) => RevertChange(name, ok);
          case RevertAll(oks) => RevertEveryChange(oks);
        }
      }
      assert calls[..|calls|] == calls;
    }
  }

  // ---------------------------------------------------------------------
  // Histories

  /** The last callback to succeed was an apply. */
  predicate LeftApplied(h: seq<Event>)
  {
    h != [] &&
    var init := h[..|h| - 1];
    match h[|h| - 1]
    case ApplyCalled(ok, _) => ok || LeftApplied(init)
    case RevertCalled(ok, _) => !ok && LeftApplied(init)
  }

  /** A successful revert between any two successful applies. */
  ghost predicate Alternates(h: seq<Event>)
  {
    forall i, j :: 0 <= i < j < |h| && DidApply(h[i]) && DidApply(h[j]) ==> RevertedBetween(h, i, j)
  }

  ghost predicate RevertedBetween(h: seq<Event>, i: int, j: int)
    requires 0 <= i < j <= |h|
  {
    exists k :: i < k < j && DidRevert(h[k])
  }

  lemma {:induction false} RevertedSince(h: seq<Event>, i: nat)
    requires i < |h| && DidApply(h[i]) && !LeftApplied(h)
    ensures RevertedBetween(h, i, |h|)
  {
    var n := |h| - 1;
    if !DidRevert(h[n]) {
      RevertedSince(h[..n], i);
      var k :| i < k < n && DidRevert(h[..n][k]);
      assert DidRevert(h[k]);
    }
  }

  lemma AppendKeepsAlternating(h: seq<Event>, e: Event)
    requires Alternates(h) && (DidApply(e) ==> !LeftApplied(h))
    ensures Alternates(h + [e])
  {
    var h' := h + [e];
    forall i, j | 0 <= i < j < |h'| && DidApply(h'[i]) && DidApply(h'[j]) ensures RevertedBetween(h', i, j) {
      if j == |h| {
        RevertedSince(h, i);
      }
      assert RevertedBetween(h, i, j);
      var k :| i < k < j && DidRevert(h[k]);
      assert DidRevert(h'[k]);
    }
  }

  /** Some callback answered with an error. */
  ghost predicate SomeFailed(h: seq<Event>)
  {
    exists i :: 0 <= i < |h| && !h[i].ok
  }

  lemma AppendFails(h: seq<Event>, e: Event)
    ensures SomeFailed(h + [e]) <==> SomeFailed(h) || !e.ok
  {
    var h' := h + [e];
    if SomeFailed(h) {
      var i :| 0 <= i < |h| && !h[i].ok;
      assert h'[i] == h[i];
    }
    assert h'[|h|] == e;
  }

  // ---------------------------------------------------------------------
  // What every call keeps

  ghost predicate ChangeInv(c: ChangeState)
  {
    && (c.corrupted ==> c.error) && (c.reverted ==> c.applied)
    && (c.applied ==> c.hasApply && c.hasRevert && c.description != "")
    && (Standing(c) <==> LeftApplied(c.history)) && Alternates(c.history) && (c.corrupted <==> SomeFailed(c.history))
    && (Standing(c) && c.targetName != "" && c.error ==> c.corrupted)
    && (Standing(c) && c.targetName == "" ==> !c.corrupted)
  }

  ghost predicate ManagerInv(m: Manager)
  {
    (forall k :: k in m.changes ==> ChangeInv(m.changes[k])) && (AnyCorrupted(m.changes) <==> m.corrupted)
  }

  /** Changes are added fresh and never replaced. */
  predicate CleanCall(m: Manager, call: Call)
  {
    call.Add? ==> Fresh(call.change) && call.name !in m.changes
  }

  ghost predicate CleanCalls(m: Manager, calls: seq<Call>)
  {
    calls == [] ||
    (CleanCalls(m, calls[..|calls| - 1]) && CleanCall(PerformedAll(m, calls[..|calls| - 1]), calls[|calls| - 1]))
  }

  lemma ApplyKeepsInv(c: ChangeState, target: string, answer: Answer)
    requires ChangeInv(c)
    ensures ChangeInv(AfterApply(c, target, answer))
  {
    if Calls(c) {
      var e := ApplyCalled(answer.ok, answer.value);
      AppendKeepsAlternating(c.history, e);
      AppendFails(c.history, e);
      assert (c.history + [e])[..|c.history|] == c.history;
    }
  }

  lemma RevertKeepsInv(c: ChangeState, ok: bool)
    requires ChangeInv(c)
    ensures ChangeInv(AfterRevert(c, ok))
  {
    if c.applied && Prechecked(c) {
      var e := RevertCalled(ok, c.targetObject);
      AppendKeepsAlternating(c.history, e);
      AppendFails(c.history, e);
      assert (c.history + [e])[..|c.history|] == c.history;
    }
  }

  /** Replacing one change by a successor that is corrupted if it was. */
  lemma CorruptedAfterUpdate(changes: map<string, ChangeState>, name: string, c: ChangeState)
    requires name in changes ==> (changes[name].corrupted ==> c.corrupted)
    ensures AnyCorrupted(changes[name := c]) <==> AnyCorrupted(changes) || c.corrupted
  {
    var changes' := changes[name := c];
    assert name in changes';
    if AnyCorrupted(changes) {
      var k :| k in changes && changes[k].corrupted;
      assert k in changes' && changes'[k].corrupted;
    }
  }

  lemma RevertAllKeepsInv(m: Manager, oks: string -> bool)
    requires ManagerInv(m)
    ensures ManagerInv(AllReverted(m, oks))
  {
    forall k | k in m.changes ensures ChangeInv(AfterRevert(m.changes[k], oks(k))) {
      RevertKeepsInv(m.changes[k], oks(k));
    }
    if AnyCorrupted(m.changes) {
      var k :| k in m.changes && m.changes[k].corrupted;
      assert AfterRevert(m.changes[k], oks(k)).corrupted;
      assert k in AllReverted(m, oks).changes;
    }
  }

  lemma PerformKeepsInv(m: Manager, call: Call)
    requires ManagerInv(m) && CleanCall(m, call)
    ensures ManagerInv(Performed(m, call))
  {
    match call
    case Allow =>
    case Add(name, c) =>
      assert ChangeInv(c);
      CorruptedAfterUpdate(m.changes, name, c);
    case Apply(name, target, answer) =>
      if name in m.changes {
        ApplyKeepsInv(m.changes[name], target, answer);
        CorruptedAfterUpdate(m.changes, name, AfterApply(m.changes[name], target, answer));
      }
    case Revert(name, ok) =>
      if name in m.changes {
        RevertKeepsInv(m.changes[name], ok);
        CorruptedAfterUpdate(m.changes, name, AfterRevert(m.changes[name], ok));
      }
    case RevertAll(oks) => RevertAllKeepsInv(m, oks);
  }

  /** Over every run. */
  lemma {:induction false} PerformAllKeepsInv(m: Manager, calls: seq<Call>)
    requires ManagerInv(m) && CleanCalls(m, calls)
    ensures ManagerInv(PerformedAll(m, calls))
  {
    if calls != [] {
      var init := calls[..|calls| - 1];
      PerformAllKeepsInv(m, init);
      PerformKeepsInv(PerformedAll(m, init), calls[|calls| - 1]);
    }
  }

  // ---------------------------------------------------------------------
  // Revert or report

  /** Applied under an empty target name: every later precheck fails without a word. */
  predicate Nameless(c: ChangeState)
  {
    Standing(c) && c.targetName == ""
  }

  predicate NamelessIn(m: Manager, name: string)
  {
    name in m.changes && Nameless(m.changes[name])
  }

  /** A call that succeeds in applying this change under an empty target name. */
  predicate AppliesNameless(m: Manager, call: Call, name: string)
  {
    call.Apply? && call.name == name && m.allowed && name in m.changes && Calls(m.changes[name]) && call.target == "" &&
      call.answer.ok
  }

  /** What is left applied by a revert without being reported is exactly what was applied without a name. */
  lemma LeftUnreportedIff(c: ChangeState, ok: bool)
    requires ChangeInv(c)
    ensures var c' := AfterRevert(c, ok); LeftApplied(c'.history) && !c'.corrupted <==> Nameless(c)
  {
    RevertKeepsInv(c, ok);
  }

  lemma NamelessAfterCall(m: Manager, call: Call, name: string)
    requires ManagerInv(m) && CleanCall(m, call)
    ensures NamelessIn(Performed(m, call), name) <==> NamelessIn(m, name) || AppliesNameless(m, call, name)
  {
  }

  ghost predicate EverNameless(m: Manager, calls: seq<Call>, name: string)
  {
    exists i :: 0 <= i < |calls| && NamelessAt(m, calls, name, i)
  }

  ghost predicate NamelessAt(m: Manager, calls: seq<Call>, name: string, i: int)
    requires 0 <= i < |calls|
  {
    AppliesNameless(PerformedAll(m, calls[..i]), calls[i], name)
  }

  /** Over every run: nothing but such a call leads there, and nothing leads away. */
  lemma {:induction false} NamelessIff(m: Manager, calls: seq<Call>, name: string)
    requires ManagerInv(m) && CleanCalls(m, calls) && !NamelessIn(m, name)
    ensures NamelessIn(PerformedAll(m, calls), name) <==> EverNameless(m, calls, name)
  {
    if calls != [] {
      var n := |calls| - 1;
      var init := calls[..n];
      NamelessIff(m, init, name);
      PerformAllKeepsInv(m, init);
      NamelessAfterCall(PerformedAll(m, init), calls[n], name);
      EverNamelessSplit(m, calls, name);
    }
  }

  lemma EverNamelessSplit(m: Manager, calls: seq<Call>, name: string)
    requires calls != []
    ensures var init := calls[..|calls| - 1];
      EverNameless(m, calls, name) <==>
        EverNameless(m, init, name) || AppliesNameless(PerformedAll(m, init), calls[|calls| - 1], name)
  {
    var n := |calls| - 1;
    var init := calls[..n];
    forall i | 0 <= i < n ensures NamelessAt(m, calls, name, i) <==> NamelessAt(m, init, name, i) {
      assert init[..i] == calls[..i];
    }
    if EverNameless(m, init, name) {
      var i :| 0 <= i < n && NamelessAt(m, init, name, i);
      assert NamelessAt(m, calls, name, i);
    }
    if EverNameless(m, calls, name) {
      var i :| 0 <= i <= n && NamelessAt(m, calls, name, i);
      assert i < n ==> NamelessAt(m, init, name, i);
    }
    assert NamelessAt(m, calls, name, n) <==> AppliesNameless(PerformedAll(m, init), calls[n], name);
  }

  /**
   Revert or report, over every run that adds its changes fresh and replaces
   none: after reverting all, whatever the callbacks answer and in whatever
   order the map is visited, a change is left applied without being marked
   corrupted exactly when it was at some point applied under an empty target name.
   */
  lemma RevertOrReportIff(m: Manager, calls: seq<Call>, oks: string -> bool, name: string)
    requires ManagerInv(m) && CleanCalls(m, calls) && !NamelessIn(m, name)
    ensures var after := Performed(PerformedAll(m, calls), RevertAll(oks));
      name in after.changes ==>
      (LeftApplied(after.changes[name].history) && !after.changes[name].corrupted <==> EverNameless(m, calls, name))
  {
    PerformAllKeepsInv(m, calls);
    NamelessIff(m, calls, name);
    var before := PerformedAll(m, calls);
    if name in before.changes {
      LeftUnreportedIff(before.changes[name], oks(name));
    }
  }

  predicate NamedTargets(calls: seq<Call>)
  {
    forall i :: 0 <= i < |calls| && calls[i].Apply? ==> calls[i].target != ""
  }

  /** With target names that are not empty, everything is reverted or the manager says that its state is corrupted. */
  lemma RevertOrReport(m: Manager, calls: seq<Call>, oks: string -> bool)
    requires ManagerInv(m) && CleanCalls(m, calls) && NamedTargets(calls)
    requires forall name :: !NamelessIn(m, name)
    ensures var after := Performed(PerformedAll(m, calls), RevertAll(oks));
      after.corrupted || forall name :: name in after.changes ==> !LeftApplied(after.changes[name].history)
  {
    var before := PerformedAll(m, calls);
    var after := Performed(before, RevertAll(oks));
    PerformAllKeepsInv(m, calls);
    PerformKeepsInv(before, RevertAll(oks));
    forall name | name in after.changes && LeftApplied(after.changes[name].history) ensures after.corrupted {
      RevertOrReportIff(m, calls, oks, name);
      assert after.changes[name].corrupted;
    }
  }

  /** The manager's flag is exact: it is set when some callback has answered with an error, and not otherwise. */
  lemma CorruptedIff(m: Manager, calls: seq<Call>)
    requires ManagerInv(m) && CleanCalls(m, calls)
    ensures var after := PerformedAll(m, calls);
      after.corrupted <==> exists name :: name in after.changes && SomeFailed(after.changes[name].history)
  {
    PerformAllKeepsInv(m, calls);
  }

  /** A fresh change, allowed, applied under an empty name and reverted: still applied, and nobody says so. */
  lemma EmptyTargetNameIsLost(description: string, value: Any, oks: string -> bool)
    requires description != ""
    ensures var c := ChangeState("target", description, true, true, Nil, false, false, false, false, []);
      var m := Manager(map[], false, false);
      var calls := [Allow, Add("c", c), Apply("c", "", Answer(value, true)), RevertAll(oks)];
      var after := PerformedAll(m, calls);
      && ManagerInv(m) && CleanCalls(m, calls)
      && "c" in after.changes && LeftApplied(after.changes["c"].history) && !after.changes["c"].corrupted
      && !after.corrupted
  {
    var c := ChangeState("target", description, true, true, Nil, false, false, false, false, []);
    var m := Manager(map[], false, false);
    var calls := [Allow, Add("c", c), Apply("c", "", Answer(value, true)), RevertAll(oks)];
    var m1, m2 := m.(allowed := true), Manager(map["c" := c], true, false);
    var m3 := Manager(map["c" := AfterApply(c, "", Answer(value, true))], true, false);
    assert PerformedAll(m, calls[..0]) == m && calls[..1][..0] == calls[..0];
    assert PerformedAll(m, calls[..1]) == m1 && calls[..2][..1] == calls[..1];
    assert PerformedAll(m, calls[..2]) == m2 && calls[..3][..2] == calls[..2];
    assert PerformedAll(m, calls[..3]) == m3 && calls[..4][..3] == calls[..3];
    assert CleanCalls(m, calls[..0]) && CleanCalls(m, calls[..1]) && CleanCalls(m, calls[..2]) &&
      CleanCalls(m, calls[..3]);
    assert calls[..4] == calls;
    assert m3.changes["c"].history == [ApplyCalled(true, value)];
    var after := AllReverted(m3, oks);
    assert after.changes["c"] == m3.changes["c"].(error := true);
  }

  // ---------------------------------------------------------------------
  // One change over a run

  /** The callbacks have not run again and the flags are what they were. */
  predicate Frozen(c: ChangeState, c': ChangeState)
  {
    c'.error && c'.history == c.history && c'.applied == c.applied && c'.reverted == c.reverted &&
      c'.corrupted == c.corrupted
  }

  /** An error is for ever, whatever is called. */
  lemma {:induction false} ErrorFreezes(m: Manager, calls: seq<Call>, name: string)
    requires CleanCalls(m, calls) && name in m.changes && m.changes[name].error
    ensures name in PerformedAll(m, calls).changes && Frozen(m.changes[name], PerformedAll(m, calls).changes[name])
  {
    if calls != [] {
      var init := calls[..|calls| - 1];
      ErrorFreezes(m, init, name);
      ErrorStays(PerformedAll(m, init), calls[|calls| - 1], name);
    }
  }

  lemma ErrorStaysInChange(c: ChangeState, target: string, answer: Answer, ok: bool)
    requires c.error
    ensures Frozen(c, AfterApply(c, target, answer)) && Frozen(c, AfterRevert(c, ok))
  {
  }

  lemma ErrorStays(m: Manager, call: Call, name: string)
    requires CleanCall(m, call) && name in m.changes && m.changes[name].error
    ensures name in Performed(m, call).changes && Frozen(m.changes[name], Performed(m, call).changes[name])
  {
    var c := m.changes[name];
    match call
    case Allow =>
    case Add(_, _) =>
    case Apply(_, target, answer) => ErrorStaysInChange(c, target, answer, true);
    case Revert(_, ok) => ErrorStaysInChange(c, "", Answer(Nil, true), ok);
    case RevertAll(oks) => ErrorStaysInChange(c, "", Answer(Nil, true), oks(name));
  }

  /** Between two successful calls of `applyFunc` there is a successful call of `revertFunc`, over every run. */
  lemma AppliesAlternate(m: Manager, calls: seq<Call>, name: string, i: nat, j: nat)
    requires ManagerInv(m) && CleanCalls(m, calls) && name in PerformedAll(m, calls).changes
    requires var h := PerformedAll(m, calls).changes[name].history; i < j < |h| && DidApply(h[i]) && DidApply(h[j])
    ensures var h := PerformedAll(m, calls).changes[name].history; exists k :: i < k < j && DidRevert(h[k])
  {
    PerformAllKeepsInv(m, calls);
    assert RevertedBetween(PerformedAll(m, calls).changes[name].history, i, j);
  }

  /** A change already reverted is reverted again, and can be reported corrupted for it. */
  lemma RevertsAgain(c: ChangeState, ok: bool)
    requires ChangeInv(c) && c.reverted && Prechecked(c)
    ensures AfterRevert(c, ok).history == c.history + [RevertCalled(ok, c.targetObject)]
    ensures !LeftApplied(AfterRevert(c, ok).history) && (AfterRevert(c, ok).corrupted <==> !ok)
  {
    RevertKeepsInv(c, ok);
  }

  // ---------------------------------------------------------------------
  // What one call does, field by field

  /** Applying in every case: blocked, standing already, or calling `applyFunc` once and keeping what it answers. */
  lemma ApplyMeaning(c: ChangeState, target: string, answer: Answer)
    ensures var c' := AfterApply(c, target, answer);
      if !c.hasApply || !c.hasRevert || c.targetName == "" || c.description == "" || c.error
      then c' == c.(error := true)
      else if c.applied && !c.reverted then c' == c
      else
        && c'.history == c.history + [ApplyCalled(answer.ok, answer.value)]
        && c'.targetName == target && c'.targetObject == answer.value && c'.description == c.description
        && c'.hasApply && c'.hasRevert
        && (answer.ok ==> c'.applied && !c'.reverted && !c'.error && c'.corrupted == c.corrupted)
        && (!answer.ok ==> c'.error && c'.corrupted && c'.applied == c.applied && c'.reverted == c.reverted)
  {
  }

  /** Reverting in every case: not applied, blocked, or calling `revertFunc` once on the object. */
  lemma RevertMeaning(c: ChangeState, ok: bool)
    ensures var c' := AfterRevert(c, ok);
      if !c.applied then c' == c
      else if !c.hasApply || !c.hasRevert || c.targetName == "" || c.description == "" || c.error
      then c' == c.(error := true)
      else if ok then c' == c.(history := c.history + [RevertCalled(true, c.targetObject)], reverted := true)
      else c' == c.(history := c.history + [RevertCalled(false, c.targetObject)], error := true, corrupted := true)
  {
  }

  /** What a call on the manager does to a change: only its own call reaches it, and applying only when allowed. */
  lemma PerformedMeaning(m: Manager, call: Call, name: string)
    requires name in m.changes
    ensures name in Performed(m, call).changes
    ensures var c, c' := m.changes[name], Performed(m, call).changes[name];
      match call
      case Allow => c' == c && Performed(m, call).allowed
      case Add(other, added) => c' == if other == name then added else c
      case Apply(other, target, answer) =>
        c' == if other == name && m.allowed then AfterApply(c, target, answer) else c
      case Revert(other, ok) => c' == if other == name then AfterRevert(c, ok) else c
      case RevertAll(oks) => c' == AfterRevert(c, oks(name))
    ensures !call.Allow? ==> Performed(m, call).allowed == m.allowed
    ensures m.corrupted ==> Performed(m, call).corrupted
    ensures !call.Add? ==> Performed(m, call).changes.Keys == m.changes.Keys
  {
  }

  // ---------------------------------------------------------------------
  // What a revert is given

  predicate AnyApply(h: seq<Event>)
  {
    h != [] && (h[|h| - 1].ApplyCalled? || AnyApply(h[..|h| - 1]))
  }

  /** What the last call of `applyFunc` returned, successful or not. */
  function LastValue(h: seq<Event>): Any
  {
    if h == [] then Nil
    else match h[|h| - 1]
      case ApplyCalled(_, value) => value
      case RevertCalled(_, _) => LastValue(h[..|h| - 1])
  }

  predicate RevertsGetLast(h: seq<Event>)
  {
    h == [] ||
    var init, last := h[..|h| - 1], h[|h| - 1];
    RevertsGetLast(init) && (last.RevertCalled? ==> AnyApply(init) && last.data == LastValue(init))
  }

  predicate ObjectInv(c: ChangeState)
  {
    && (c.applied ==> AnyApply(c.history)) && RevertsGetLast(c.history)
    && (AnyApply(c.history) ==> c.targetObject == LastValue(c.history))
  }

  lemma AppendObject(h: seq<Event>, e: Event)
    requires RevertsGetLast(h) && (e.RevertCalled? ==> AnyApply(h) && e.data == LastValue(h))
    ensures RevertsGetLast(h + [e]) && (AnyApply(h + [e]) <==> e.ApplyCalled? || AnyApply(h))
    ensures LastValue(h + [e]) == match e case ApplyCalled(_, value) => value case RevertCalled(_, _) => LastValue(h)
  {
    assert (h + [e])[..|h|] == h;
  }

  lemma ApplyKeepsObject(c: ChangeState, target: string, answer: Answer)
    requires ObjectInv(c)
    ensures ObjectInv(AfterApply(c, target, answer))
  {
    AppendObject(c.history, ApplyCalled(answer.ok, answer.value));
  }

  lemma RevertKeepsObject(c: ChangeState, ok: bool)
    requires ObjectInv(c)
    ensures ObjectInv(AfterRevert(c, ok))
  {
    if c.applied {
      AppendObject(c.history, RevertCalled(ok, c.targetObject));
    }
  }

  lemma CallKeepsObjects(m: Manager, call: Call, name: string)
    requires CleanCall(m, call) && (name in m.changes ==> ObjectInv(m.changes[name]))
    ensures name in Performed(m, call).changes ==> ObjectInv(Performed(m, call).changes[name])
  {
    if name in m.changes {
      PerformedMeaning(m, call, name);
      match call
      case Allow =>
      case Add(_, _) =>
      case Apply(_, target, answer) => ApplyKeepsObject(m.changes[name], target, answer);
      case Revert(_, ok) => RevertKeepsObject(m.changes[name], ok);
      case RevertAll(oks) => RevertKeepsObject(m.changes[name], oks(name));
    } else if name in Performed(m, call).changes {
      assert call.Add? && Performed(m, call).changes[name] == call.change;
    }
  }

  lemma {:induction false} RunKeepsObjects(m: Manager, calls: seq<Call>, name: string)
    requires CleanCalls(m, calls) && (name in m.changes ==> ObjectInv(m.changes[name]))
    ensures name in PerformedAll(m, calls).changes ==> ObjectInv(PerformedAll(m, calls).changes[name])
  {
    if calls != [] {
      var init := calls[..|calls| - 1];
      RunKeepsObjects(m, init, name);
      CallKeepsObjects(PerformedAll(m, init), calls[|calls| - 1], name);
    }
  }

  /** Call `k` is the last of `applyFunc` before event `i`. */
  ghost predicate LastApplyBefore(h: seq<Event>, i: nat, k: nat)
  {
    k < i <= |h| && h[k].ApplyCalled? && forall j :: k < j < i ==> h[j].RevertCalled?
  }

  lemma {:induction false} FindLastApply(h: seq<Event>) returns (k: nat)
    requires AnyApply(h)
    ensures LastApplyBefore(h, |h|, k) && h[k].value == LastValue(h)
  {
    if h[|h| - 1].ApplyCalled? {
      k := |h| - 1;
    } else {
      k := FindLastApply(h[..|h| - 1]);
    }
  }

  lemma {:induction false} GetsLastAt(h: seq<Event>, i: nat)
    requires RevertsGetLast(h) && i < |h| && h[i].RevertCalled?
    ensures AnyApply(h[..i]) && h[i].data == LastValue(h[..i])
  {
    var init := h[..|h| - 1];
    if i < |init| {
      GetsLastAt(init, i);
      assert init[..i] == h[..i];
    }
  }

  /**
   Over every run: each call of `revertFunc` comes after one of `applyFunc`, and is
   given exactly the object that the last of these returned.
   */
  lemma RevertGetsAppliedObject(m: Manager, calls: seq<Call>, name: string, i: nat) returns (k: nat)
    requires CleanCalls(m, calls) && name in PerformedAll(m, calls).changes
    requires name in m.changes ==> ObjectInv(m.changes[name])
    requires var h := PerformedAll(m, calls).changes[name].history; i < |h| && h[i].RevertCalled?
    ensures var h := PerformedAll(m, calls).changes[name].history;
      LastApplyBefore(h, i, k) && h[i].data == h[k].value
  {
    var h := PerformedAll(m, calls).changes[name].history;
    RunKeepsObjects(m, calls, name);
    GetsLastAt(h, i);
    k := FindLastApply(h[..i]);
  }
}
