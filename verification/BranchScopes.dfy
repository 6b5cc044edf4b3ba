/**
 Alternative readings. A reading group offers branches of which a world picks one;
 entities and claims are scoped to the branches they occur in. The check on scopes
 is syntactic; this is what it means over all worlds.
 */
module BranchScopes {
  import opened Collections
  import opened Wrappers

  datatype Group = Group(id: string, branches: seq<string>)

  datatype Entity = Entity(id: string, branches: seq<string>)

  datatype Claim = Claim(
    id: string, subject: string, object_: string, roles: seq<string>, voice: string, branches: seq<string>)

  datatype ScopeError =
    | DuplicateId(id: string)
    | DuplicateBranch(path: string)
    | UnknownBranch(path: string)
    | UnknownEntity(claim: string, entity: string)
    | OutOfScope(claim: string, entity: string)

  // ---------------------------------------------------------------------
  // The branch index
  // ---------------------------------------------------------------------

  function Listed(groups: seq<Group>, n: nat): seq<string>
    requires n <= |groups|
  {
    if n == 0 then [] else Listed(groups, n - 1) + groups[n - 1].branches
  }

  /** Adds identifiers to those taken, refusing one that is taken already. */
  method TakeIds(ids: seq<string>, taken: set<string>) returns (all: Option<set<string>>)
    ensures all.Some? <==> Distinct(ids) && forall i :: 0 <= i < |ids| ==> ids[i] !in taken
    ensures all.Some? ==> forall x :: x in all.value <==> x in taken || x in ids
  {
    var sofar := taken;
    for i := 0 to |ids|
      invariant Distinct(ids[..i]) && forall k :: 0 <= k < i ==> ids[k] !in taken
      invariant forall x :: x in sofar <==> x in taken || x in ids[..i]
    {
      assert ids[..i + 1] == ids[..i] + [ids[i]];
      if ids[i] in sofar {
        assert ids[i] in taken || exists k :: 0 <= k < i && ids[k] == ids[i];
        return None;
      }
      sofar := sofar + {ids[i]};
    }
    assert ids[..|ids|] == ids;
    return Some(sofar);
  }

  /** Each branch points at the one group that offers it. */
  ghost predicate IsIndex(groups: seq<Group>, branches: map<string, string>) {
    && (forall g, b :: g in groups && b in g.branches ==> b in branches && branches[b] == g.id)
    && (forall b :: b in branches ==> exists g :: g in groups && b in g.branches)
    && (forall g, h :: g in groups && h in groups && g.id == h.id ==> g == h)
  }

  /** Groups offer something to choose from. */
  ghost predicate WellIndexed(groups: seq<Group>, branches: map<string, string>) {
    IsIndex(groups, branches) && forall g :: g in groups ==> g.branches != []
  }

  function GroupIds(groups: seq<Group>): (ids: seq<string>)
    ensures |ids| == |groups| && forall i :: 0 <= i < |groups| ==> ids[i] == groups[i].id
  {
    if groups == [] then [] else GroupIds(groups[..|groups| - 1]) + [groups[|groups| - 1].id]
  }

  /** The identifiers of all groups and of the branches of the first `n`. */
  function IdsTo(groups: seq<Group>, n: nat): seq<string>
    requires n <= |groups|
  {
    GroupIds(groups) + Listed(groups, n)
  }

  ghost predicate Fresh(ids: seq<string>, taken: set<string>) {
    Distinct(ids) && forall i :: 0 <= i < |ids| ==> ids[i] !in taken
  }

  lemma FreshParts(a: seq<string>, b: seq<string>, taken: set<string>, all: set<string>)
    requires forall x :: x in all <==> x in taken || x in a
    ensures Fresh(a + b, taken) <==> Fresh(a, taken) && Fresh(b, all)
  {
    var ab := a + b;
    assert forall i :: 0 <= i < |a| ==> ab[i] == a[i];
    assert forall j :: 0 <= j < |b| ==> ab[|a| + j] == b[j];
    if Fresh(ab, taken) {
      forall j | 0 <= j < |b|
        ensures b[j] !in all
      {
        assert ab[|a| + j] !in taken && forall i :: 0 <= i < |a| ==> ab[i] != ab[|a| + j];
      }
      forall i, j | 0 <= i < j < |b|
        ensures b[i] != b[j]
      {
        assert ab[|a| + i] != ab[|a| + j];
      }
    }
  }

  lemma {:induction false} StaleStays(groups: seq<Group>, n: nat, m: nat, taken: set<string>)
    requires n <= m <= |groups| && !Fresh(IdsTo(groups, n), taken)
    ensures !Fresh(IdsTo(groups, m), taken)
    decreases m
  {
    if n < m {
      StaleStays(groups, n, m - 1, taken);
      var before, more := IdsTo(groups, m - 1), groups[m - 1].branches;
      assert IdsTo(groups, m) == before + more;
      FreshParts(before, more, taken, taken + set x | x in before);
    }
  }

  /** One group's branches, each pointing at it. */
  method AddBranches(g: Group, branches: map<string, string>) returns (next: map<string, string>)
    ensures forall b :: b in next <==> b in branches || b in g.branches
    ensures forall b :: b in branches && b !in g.branches ==> next[b] == branches[b]
    ensures forall b :: b in g.branches ==> next[b] == g.id
  {
    next := branches;
    for k := 0 to |g.branches|
      invariant forall b :: b in next <==> b in branches || b in g.branches[..k]
      invariant forall b :: b in branches && b !in g.branches[..k] ==> next[b] == branches[b]
      invariant forall b :: b in g.branches[..k] ==> next[b] == g.id
    {
      assert g.branches[..k + 1] == g.branches[..k] + [g.branches[k]];
      next := next[g.branches[k] := g.id];
    }
    assert g.branches[..|g.branches|] == g.branches;
  }

  lemma GroupsDiffer(groups: seq<Group>, n: nat, taken: set<string>)
    requires n < |groups| && Fresh(IdsTo(groups, n), taken)
    ensures forall g :: g in groups[..n] ==> g.id != groups[n].id
  {
    var ids := IdsTo(groups, n);
    assert forall i :: 0 <= i < |groups| ==> ids[i] == groups[i].id;
  }

  /** Everything known once the branches of the first `n` groups are in. */
  ghost predicate Indexed(groups: seq<Group>, n: nat, taken: set<string>, all: set<string>, branches: map<string, string>)
    requires n <= |groups|
  {
    && IsIndex(groups[..n], branches) && Fresh(IdsTo(groups, n), taken)
    && (forall x :: x in all <==> x in taken || x in IdsTo(groups, n))
    && (forall b :: b in branches ==> b in all)
  }

  method NextGroup(groups: seq<Group>, n: nat, ghost taken: set<string>, all: set<string>, branches: map<string, string>)
    returns (ok: bool, all': set<string>, next: map<string, string>)
    requires n < |groups| && Indexed(groups, n, taken, all, branches)
    ensures ok <==> Fresh(IdsTo(groups, n + 1), taken)
    ensures ok ==> Indexed(groups, n + 1, taken, all', next)
  {
    ok, all', next := false, all, branches;
    var more := TakeIds(groups[n].branches, all);
    assert IdsTo(groups, n + 1) == IdsTo(groups, n) + groups[n].branches;
    FreshParts(IdsTo(groups, n), groups[n].branches, taken, all);
    if more.Some? {
      next := AddBranches(groups[n], branches);
      GroupsDiffer(groups, n, taken);
      IndexGrows(groups[..n], groups[n], branches, next);
      assert groups[..n + 1] == groups[..n] + [groups[n]];
      ok, all' := true, more.value;
    }
  }

  /** The groups and their branches, refusing exactly when an identifier is used twice or was taken before. */
  method IndexGroups(groups: seq<Group>, taken: set<string>) returns (r: Result<map<string, string>, ScopeError>)
    ensures r.Success? <==> Fresh(IdsTo(groups, |groups|), taken)
    ensures r.Success? ==> IsIndex(groups, r.value)
  {
    var ids := TakeIds(GroupIds(groups), taken);
    assert IdsTo(groups, 0) == GroupIds(groups);
    if ids.None? {
      StaleStays(groups, 0, |groups|, taken);
      return Failure(DuplicateId("reading_groups"));
    }
    var all := ids.value;
    var branches: map<string, string> := map[];
    for n := 0 to |groups|
      invariant Indexed(groups, n, taken, all, branches)
    {
      var ok;
      ok, all, branches := NextGroup(groups, n, taken, all, branches);
      if !ok {
        StaleStays(groups, n + 1, |groups|, taken);
        return Failure(DuplicateId(groups[n].id));
      }
    }
    assert groups[..|groups|] == groups;
    return Success(branches);
  }

  lemma IndexGrows(before: seq<Group>, g: Group, branches: map<string, string>, next: map<string, string>)
    requires IsIndex(before, branches) && forall h :: h in before ==> h.id != g.id
    requires forall b :: b in next <==> b in branches || b in g.branches
    requires forall b :: b in branches ==> b !in g.branches && next[b] == branches[b]
    requires forall b :: b in g.branches ==> next[b] == g.id
    ensures IsIndex(before + [g], next)
  {
    var after := before + [g];
    forall b | b in next
      ensures exists h :: h in after && b in h.branches
    {
      if b in branches {
        var h :| h in before && b in h.branches;
        assert h in after;
      } else {
        assert g in after;
      }
    }
  }

  // ---------------------------------------------------------------------
  // Worlds
  // ---------------------------------------------------------------------

  /** A world picks one branch of every group. */
  ghost predicate IsWorld(groups: seq<Group>, world: map<string, string>) {
    forall g :: g in groups ==> g.id in world && world[g.id] in g.branches
  }

  predicate Mentions(branches: map<string, string>, scope: set<string>, group: string) {
    exists b :: b in scope && b in branches && branches[b] == group
  }

  /** A scope holds in a world when it lists the pick of every group it mentions. */
  ghost predicate Holds(branches: map<string, string>, scope: set<string>, world: map<string, string>) {
    forall group :: Mentions(branches, scope, group) ==> group in world && world[group] in scope
  }

  /** The listed branches of one group. */
  function Of(branches: map<string, string>, scope: set<string>, group: string): set<string> {
    set b | b in scope && b in branches && branches[b] == group
  }

  /** For every group the entity is scoped in, the claim is scoped in it too, and no further. */
  predicate Allows(branches: map<string, string>, claim: set<string>, entity: set<string>) {
    forall b :: b in entity && b in branches ==>
      var needed, current := Of(branches, entity, branches[b]), Of(branches, claim, branches[b]);
      current != {} && current <= needed
  }

  lemma MentionsIsOf(branches: map<string, string>, scope: set<string>, group: string)
    ensures Mentions(branches, scope, group) <==> Of(branches, scope, group) != {}
  {
    if Mentions(branches, scope, group) {
      var b :| b in scope && b in branches && branches[b] == group;
      assert b in Of(branches, scope, group);
    }
    if Of(branches, scope, group) != {} {
      var b :| b in Of(branches, scope, group);
    }
  }

  /** The picked branch belongs to its group. */
  lemma PickIsOfGroup(groups: seq<Group>, branches: map<string, string>, world: map<string, string>, b: string)
    requires WellIndexed(groups, branches) && IsWorld(groups, world) && b in branches
    ensures branches[b] in world && world[branches[b]] in branches && branches[world[branches[b]]] == branches[b]
  {
    var g :| g in groups && b in g.branches;
  }

  /** Scopes are sound: where an allowed claim holds, the entity exists. */
  lemma AllowedExists(groups: seq<Group>, branches: map<string, string>, claim: set<string>, entity: set<string>,
                      world: map<string, string>)
    requires WellIndexed(groups, branches) && IsWorld(groups, world)
    requires Allows(branches, claim, entity) && Holds(branches, claim, world)
    ensures Holds(branches, entity, world)
  {
    forall group | Mentions(branches, entity, group)
      ensures group in world && world[group] in entity
    {
      var b :| b in entity && b in branches && branches[b] == group;
      PickIsOfGroup(groups, branches, world, b);
      MentionsIsOf(branches, claim, group);
      assert world[group] in Of(branches, claim, group);
    }
  }

  /** The entity lists every branch of the group. */
  ghost predicate ListsAll(g: Group, scope: set<string>) {
    forall b :: b in g.branches ==> b in scope
  }

  /** Whatever world the claim holds in, the entity exists. */
  ghost predicate Implies(groups: seq<Group>, branches: map<string, string>, claim: set<string>, entity: set<string>) {
    forall world :: IsWorld(groups, world) && Holds(branches, claim, world) ==> Holds(branches, entity, world)
  }

  /** A branch for the group that suits the claim, if the claim mentions it. */
  ghost function Suiting(g: Group, scope: set<string>): (b: string)
    requires g.branches != []
    ensures b in g.branches
    ensures (exists c :: c in g.branches && c in scope) ==> b in scope
  {
    if c :| c in g.branches && c in scope then c else g.branches[0]
  }

  /** A world the claim holds in, with a chosen pick for one group. */
  lemma SuitingWorld(groups: seq<Group>, branches: map<string, string>, claim: set<string>, h: Group, pick: string)
    returns (world: map<string, string>)
    requires WellIndexed(groups, branches) && h in groups && pick in h.branches
    requires Mentions(branches, claim, h.id) ==> pick in claim
    ensures IsWorld(groups, world) && Holds(branches, claim, world) && h.id in world && world[h.id] == pick
  {
    world := SuitingTo(groups, claim, |groups|)[h.id := pick];
    SuitingIsWorld(groups, branches, claim, |groups|);
    forall group | Mentions(branches, claim, group)
      ensures group in world && world[group] in claim
    {
      var b :| b in claim && b in branches && branches[b] == group;
      var g :| g in groups && b in g.branches;
      var i :| 0 <= i < |groups| && groups[i] == g;
    }
  }

  ghost function SuitingTo(groups: seq<Group>, claim: set<string>, n: nat): map<string, string>
    requires n <= |groups| && forall g :: g in groups ==> g.branches != []
  {
    if n == 0 then map[] else SuitingTo(groups, claim, n - 1)[groups[n - 1].id := Suiting(groups[n - 1], claim)]
  }

  lemma {:induction false} SuitingIsWorld(groups: seq<Group>, branches: map<string, string>, claim: set<string>, n: nat)
    requires n <= |groups| && WellIndexed(groups, branches)
    ensures forall i :: 0 <= i < n ==>
              groups[i].id in SuitingTo(groups, claim, n) && SuitingTo(groups, claim, n)[groups[i].id] == Suiting(groups[i], claim)
  {
    if n > 0 {
      SuitingIsWorld(groups, branches, claim, n - 1);
      forall i | 0 <= i < n && groups[i].id == groups[n - 1].id
        ensures groups[i] == groups[n - 1]
      {
        assert groups[i] in groups && groups[n - 1] in groups;
      }
    }
  }

  /** What the check asks beyond the implication: a claim has to mention even a group the entity leaves open. */
  ghost predicate MentionsOpenGroups(groups: seq<Group>, branches: map<string, string>, claim: set<string>,
                                     entity: set<string>) {
    forall g :: g in groups && Mentions(branches, entity, g.id) && ListsAll(g, entity) ==> Mentions(branches, claim, g.id)
  }

  lemma UnmentionedBreaks(groups: seq<Group>, branches: map<string, string>, claim: set<string>, entity: set<string>,
                          g: Group)
    requires WellIndexed(groups, branches) && !Mentions(branches, claim, g.id)
    requires g in groups && Mentions(branches, entity, g.id) && !ListsAll(g, entity)
    ensures !Implies(groups, branches, claim, entity)
  {
    var other :| other in g.branches && other !in entity;
    var world := SuitingWorld(groups, branches, claim, g, other);
    assert !Holds(branches, entity, world);
  }

  lemma ImpliedMentions(groups: seq<Group>, branches: map<string, string>, claim: set<string>, entity: set<string>,
                        g: Group)
    requires WellIndexed(groups, branches) && Implies(groups, branches, claim, entity)
    requires g in groups && Mentions(branches, entity, g.id) && !ListsAll(g, entity)
    ensures Mentions(branches, claim, g.id)
  {
    if !Mentions(branches, claim, g.id) {
      UnmentionedBreaks(groups, branches, claim, entity, g);
    }
  }

  lemma ImpliedLists(groups: seq<Group>, branches: map<string, string>, claim: set<string>, entity: set<string>, g: Group,
                     b: string)
    requires WellIndexed(groups, branches) && Implies(groups, branches, claim, entity)
    requires g in groups && Mentions(branches, entity, g.id) && b in claim && b in g.branches
    ensures b in entity
  {
    var world := SuitingWorld(groups, branches, claim, g, b);
    assert Holds(branches, entity, world);
  }

  /** The check is exactly the implication over all worlds, together with mentioning the groups the entity leaves open. */
  lemma AllowsExactly(groups: seq<Group>, branches: map<string, string>, claim: set<string>, entity: set<string>)
    requires WellIndexed(groups, branches)
    ensures Allows(branches, claim, entity) <==>
      Implies(groups, branches, claim, entity) && MentionsOpenGroups(groups, branches, claim, entity)
  {
    if Allows(branches, claim, entity) {
      forall world | IsWorld(groups, world) && Holds(branches, claim, world)
        ensures Holds(branches, entity, world)
      {
        AllowedExists(groups, branches, claim, entity, world);
      }
      forall g | g in groups && Mentions(branches, entity, g.id)
        ensures Mentions(branches, claim, g.id)
      {
        MentionsIsOf(branches, claim, g.id);
      }
    }
    if Implies(groups, branches, claim, entity) && MentionsOpenGroups(groups, branches, claim, entity) {
      ImpliedIsAllowed(groups, branches, claim, entity);
    }
  }

  lemma ImpliedIsAllowed(groups: seq<Group>, branches: map<string, string>, claim: set<string>, entity: set<string>)
    requires WellIndexed(groups, branches)
    requires Implies(groups, branches, claim, entity) && MentionsOpenGroups(groups, branches, claim, entity)
    ensures Allows(branches, claim, entity)
  {
    forall b | b in entity && b in branches
      ensures Of(branches, claim, branches[b]) != {} && Of(branches, claim, branches[b]) <= Of(branches, entity, branches[b])
    {
      var g :| g in groups && b in g.branches;
      assert Mentions(branches, entity, g.id);
      if !ListsAll(g, entity) {
        ImpliedMentions(groups, branches, claim, entity, g);
      }
      MentionsIsOf(branches, claim, g.id);
      forall c | c in Of(branches, claim, g.id)
        ensures c in Of(branches, entity, g.id)
      {
        var h :| h in groups && c in h.branches;
        ImpliedLists(groups, branches, claim, entity, g, c);
      }
    }
  }

  /** When no entity scope lists all branches of a group, the check is exactly the implication. */
  lemma AllowsIsImplication(groups: seq<Group>, branches: map<string, string>, claim: set<string>, entity: set<string>)
    requires WellIndexed(groups, branches) && forall g :: g in groups ==> !ListsAll(g, entity)
    ensures Allows(branches, claim, entity) <==> Implies(groups, branches, claim, entity)
  {
    AllowsExactly(groups, branches, claim, entity);
  }

  /** The two differ: an entity that exists on both branches is refused to a claim that leaves the choice open. */
  lemma OpenChoiceRefused()
    ensures var groups, branches := [Group("g", ["a", "b"])], map["a" := "g", "b" := "g"];
            WellIndexed(groups, branches) && Implies(groups, branches, {}, {"a", "b"}) && !Allows(branches, {}, {"a", "b"})
  {
    var groups, branches := [Group("g", ["a", "b"])], map["a" := "g", "b" := "g"];
    assert groups[0] in groups && groups[0].branches[0] == "a" && groups[0].branches[1] == "b";
    forall world | IsWorld(groups, world) && Holds(branches, {}, world)
      ensures Holds(branches, {"a", "b"}, world)
    {
      assert groups[0].id in world;
    }
    assert "a" in {"a", "b"} && Of(branches, {}, "g") == {};
  }

  // ---------------------------------------------------------------------
  // The claims of a reading
  // ---------------------------------------------------------------------

  function SetOf(s: seq<string>): set<string> {
    set x | x in s
  }

  predicate IsEntityVoice(voice: string) {
    voice != "narrator" && voice != "unknown"
  }

  /** Everything a claim refers to. */
  function Refs(c: Claim): seq<string> {
    [c.subject, c.object_] + c.roles + (if IsEntityVoice(c.voice) then [c.voice] else [])
  }

  ghost predicate ScopeOk(branches: map<string, string>, scope: seq<string>) {
    Distinct(scope) && forall b :: b in scope ==> b in branches
  }

  ghost function ScopeFault(scope: seq<string>, path: string): ScopeError {
    if Distinct(scope) then UnknownBranch(path) else DuplicateBranch(path)
  }

  method CheckScope(branches: map<string, string>, scope: seq<string>, path: string) returns (r: Result<(), ScopeError>)
    ensures r == if ScopeOk(branches, scope) then Success(()) else Failure(ScopeFault(scope, path))
  {
    var ids := TakeIds(scope, {});
    if ids.None? {
      return Failure(DuplicateBranch(path));
    }
    if !(SetOf(scope) <= branches.Keys) {
      return Failure(UnknownBranch(path));
    }
    assert forall b :: b in scope ==> b in SetOf(scope);
    return Success(());
  }

  ghost predicate ClaimOk(branches: map<string, string>, entities: map<string, Entity>, c: Claim) {
    && ScopeOk(branches, c.branches)
    && forall id :: id in Refs(c) ==>
         RefOk(branches, entities, c, id)
  }

  predicate RefOk(branches: map<string, string>, entities: map<string, Entity>, c: Claim, id: string) {
    id in entities && Allows(branches, SetOf(c.branches), SetOf(entities[id].branches))
  }

  /** The first of the claim's references that is in fault, and how. */
  ghost predicate IsRefFault(branches: map<string, string>, entities: map<string, Entity>, c: Claim, i: int,
                             error: ScopeError) {
    && 0 <= i < |Refs(c)| && (forall k :: 0 <= k < i ==> RefOk(branches, entities, c, Refs(c)[k]))
    && !RefOk(branches, entities, c, Refs(c)[i])
    && error == if Refs(c)[i] in entities then OutOfScope(c.id, Refs(c)[i]) else UnknownEntity(c.id, Refs(c)[i])
  }

  ghost predicate IsClaimFault(branches: map<string, string>, entities: map<string, Entity>, c: Claim, error: ScopeError) {
    if ScopeOk(branches, c.branches) then exists i :: IsRefFault(branches, entities, c, i, error)
    else error == ScopeFault(c.branches, c.id)
  }

  /** The claim's subject, object, roles and speaker, when that is neither the narrator nor unknown, are all in order. */
  ghost predicate RefersInOrder(branches: map<string, string>, entities: map<string, Entity>, c: Claim) {
    && RefOk(branches, entities, c, c.subject) && RefOk(branches, entities, c, c.object_)
    && (forall id :: id in c.roles ==> RefOk(branches, entities, c, id))
    && (c.voice == "narrator" || c.voice == "unknown" || RefOk(branches, entities, c, c.voice))
  }

  lemma RefsAreChecked(branches: map<string, string>, entities: map<string, Entity>, c: Claim)
    ensures ClaimOk(branches, entities, c) <==> ScopeOk(branches, c.branches) && RefersInOrder(branches, entities, c)
  {
    var refs := Refs(c);
    assert refs[0] == c.subject && refs[1] == c.object_;
    forall id
      ensures id in refs <==> id == c.subject || id == c.object_ || id in c.roles || (IsEntityVoice(c.voice) && id == c.voice)
    {
      assert refs == [c.subject, c.object_] + c.roles + (if IsEntityVoice(c.voice) then [c.voice] else []);
    }
  }

  method CheckClaim(branches: map<string, string>, entities: map<string, Entity>, c: Claim)
    returns (r: Result<(), ScopeError>)
    ensures r.Success? <==> ClaimOk(branches, entities, c)
    ensures r.Success? <==> ScopeOk(branches, c.branches) && RefersInOrder(branches, entities, c)
    ensures r.Failure? ==> IsClaimFault(branches, entities, c, r.error)
  {
    RefsAreChecked(branches, entities, c);
    var scope := CheckScope(branches, c.branches, c.id);
    if scope.Failure? {
      return scope;
    }
    var refs := Refs(c);
    for i := 0 to |refs|
      invariant forall k :: 0 <= k < i ==> RefOk(branches, entities, c, refs[k])
    {
      if refs[i] !in entities {
        assert refs[i] in Refs(c) && IsRefFault(branches, entities, c, i, UnknownEntity(c.id, refs[i]));
        return Failure(UnknownEntity(c.id, refs[i]));
      }
      if !Allows(branches, SetOf(c.branches), SetOf(entities[refs[i]].branches)) {
        assert refs[i] in Refs(c) && IsRefFault(branches, entities, c, i, OutOfScope(c.id, refs[i]));
        return Failure(OutOfScope(c.id, refs[i]));
      }
    }
    return Success(());
  }

  /** The first claim in fault, and how. */
  ghost predicate IsFirstFault(branches: map<string, string>, entities: map<string, Entity>, claims: seq<Claim>,
                               i: int, error: ScopeError) {
    && 0 <= i < |claims| && (forall k :: 0 <= k < i ==> ClaimOk(branches, entities, claims[k]))
    && !ClaimOk(branches, entities, claims[i]) && IsClaimFault(branches, entities, claims[i], error)
  }

  method CheckClaims(branches: map<string, string>, entities: map<string, Entity>, claims: seq<Claim>)
    returns (r: Result<(), ScopeError>)
    ensures r.Success? <==> forall c :: c in claims ==> ClaimOk(branches, entities, c)
    ensures r.Failure? ==> exists i :: IsFirstFault(branches, entities, claims, i, r.error)
  {
    for i := 0 to |claims|
      invariant forall k :: 0 <= k < i ==> ClaimOk(branches, entities, claims[k])
    {
      var one := CheckClaim(branches, entities, claims[i]);
      if one.Failure? {
        assert claims[i] in claims && IsFirstFault(branches, entities, claims, i, one.error);
        return one;
      }
    }
    return Success(());
  }

  /** In every world where an accepted claim holds, its subject, object, roles and speaking voice all exist. */
  lemma ClaimedExists(groups: seq<Group>, branches: map<string, string>, entities: map<string, Entity>, c: Claim,
                      world: map<string, string>)
    requires WellIndexed(groups, branches) && IsWorld(groups, world) && ClaimOk(branches, entities, c)
    requires Holds(branches, SetOf(c.branches), world)
    ensures c.subject in entities && Holds(branches, SetOf(entities[c.subject].branches), world)
    ensures c.object_ in entities && Holds(branches, SetOf(entities[c.object_].branches), world)
    ensures forall id :: id in c.roles ==> id in entities && Holds(branches, SetOf(entities[id].branches), world)
    ensures c.voice != "narrator" && c.voice != "unknown" ==>
              c.voice in entities && Holds(branches, SetOf(entities[c.voice].branches), world)
  {
    forall id | id in Refs(c)
      ensures id in entities && Holds(branches, SetOf(entities[id].branches), world)
    {
      AllowedExists(groups, branches, SetOf(c.branches), SetOf(entities[id].branches), world);
    }
    assert Refs(c)[0] == c.subject && Refs(c)[1] == c.object_;
    assert IsEntityVoice(c.voice) ==> Refs(c)[|Refs(c)| - 1] == c.voice;
  }
}
