/**
 The category store and the operations of the category service on it.

 Each operation is a function from a store to an outcome and a store; `CategoryService` is the object
 whose methods are proved to be these functions.  A falsy `parentId` (absent, null or empty) is
 `None` or the empty string.
*/
module Categories {
  import opened Wrappers
  import opened CategoryForest

  const BULK_LIMIT := 1000

  datatype Role = Admin | Regular

  datatype Member = Member(userId: string, role: Role)

  datatype Category = Category(
    name: string, parent: Option<string>, isActive: bool, members: seq<Member>, memberCount: int)

  /** `newestFirst` lists the ids in descending order of creation, the default sort order. */
  datatype Store = Store(docs: map<string, Category>, newestFirst: seq<string>)

  const EMPTY := Store(map[], [])

  datatype Outcome = Done | NotFound | Conflict | BadRequest

  datatype Update = Update(name: Option<string>, parentId: Option<string>, isActive: Option<bool>)

  datatype Event =
    | Create(id: string, name: string, parentId: Option<string>)
    | Change(id: string, update: Update)
    | Delete(id: string)
    | AddMember(id: string, member: Member)
    | RemoveMember(id: string, userId: string)
    | BulkAdd(id: string, userIds: seq<string>, role: Role)
    | BulkRemove(id: string, userIds: seq<string>)

  // ----- Members ------------------------------------------------------------------------------------

  function UserIds(ms: seq<Member>): set<string> {
    if ms == [] then {} else {ms[0].userId} + UserIds(ms[1..])
  }

  ghost predicate Unique(ms: seq<Member>) {
    ms != [] ==> ms[0].userId !in UserIds(ms[1..]) && Unique(ms[1..])
  }

  /** `$pull`: every entry of the user goes. */
  function Pull(ms: seq<Member>, userId: string): seq<Member> {
    if ms == [] then []
    else if ms[0].userId == userId then Pull(ms[1..], userId)
    else [ms[0]] + Pull(ms[1..], userId)
  }

  function Joined(c: Category, m: Member): Category {
    c.(members := c.members + [m], memberCount := c.memberCount + 1)
  }

  function Left(c: Category, userId: string): Category {
    c.(members := Pull(c.members, userId), memberCount := c.memberCount - 1)
  }

  function AllJoined(c: Category, userIds: seq<string>, role: Role): Category
    decreases userIds
  {
    if userIds == [] then c
    else
      var u := userIds[0];
      AllJoined(if u in UserIds(c.members) then c else Joined(c, Member(u, role)), userIds[1..], role)
  }

  function AllLeft(c: Category, userIds: seq<string>): Category
    decreases userIds
  {
    if userIds == [] then c
    else
      var u := userIds[0];
      AllLeft(if u in UserIds(c.members) then Left(c, u) else c, userIds[1..])
  }

  // ----- The operations -------------------------------------------------------------------------------

  predicate NameTaken(s: Store, name: string) {
    exists id :: id in s.docs && s.docs[id].name == name
  }

  predicate HasChildren(s: Store, id: string) {
    exists c :: c in s.docs && s.docs[c].parent == Some(id)
  }

  predicate Given(parentId: Option<string>) {
    parentId.Some? && parentId.value != ""
  }

  function CreateCategory(s: Store, id: string, name: string, parentId: Option<string>): (Outcome, Store) {
    if NameTaken(s, name) then (Conflict, s)
    else if Given(parentId) && parentId.value !in s.docs then (NotFound, s)
    else if Given(parentId) && !s.docs[parentId.value].isActive then (BadRequest, s)
    else
      var parent := if Given(parentId) then parentId else None;
      (Done, Store(s.docs[id := Category(name, parent, true, [], 0)], [id] + s.newestFirst))
  }

  function Changed(c: Category, u: Update): Category {
    c.(name := if u.name.Some? then u.name.value else c.name,
       parent := if Given(u.parentId) then u.parentId else c.parent,
       isActive := if u.isActive.Some? then u.isActive.value else c.isActive)
  }

  function UpdateCategory(s: Store, id: string, u: Update): (Outcome, Store) {
    if id !in s.docs then (NotFound, s)
    else
      var c := s.docs[id];
      if u.name.Some? && u.name.value != "" && u.name.value != c.name && NameTaken(s, u.name.value) then (Conflict, s)
      else if Given(u.parentId) && u.parentId != c.parent && u.parentId.value !in s.docs then (NotFound, s)
      else if Given(u.parentId) && u.parentId != c.parent && !s.docs[u.parentId.value].isActive then (BadRequest, s)
      else if Given(u.parentId) && u.parentId != c.parent && u.parentId.value == id then (BadRequest, s)
      else (Done, s.(docs := s.docs[id := Changed(c, u)]))
  }

  function Without(ids: seq<string>, id: string): seq<string> {
    if ids == [] then []
    else if ids[0] == id then Without(ids[1..], id)
    else [ids[0]] + Without(ids[1..], id)
  }

  function DeleteCategory(s: Store, id: string): (Outcome, Store) {
    if id !in s.docs then (NotFound, s)
    else if HasChildren(s, id) then (BadRequest, s)
    else (Done, Store(s.docs - {id}, Without(s.newestFirst, id)))
  }

  function AddMemberTo(s: Store, id: string, m: Member): (Outcome, Store) {
    if id !in s.docs then (NotFound, s)
    else if m.userId in UserIds(s.docs[id].members) then (Conflict, s)
    else (Done, s.(docs := s.docs[id := Joined(s.docs[id], m)]))
  }

  function RemoveMemberFrom(s: Store, id: string, userId: string): (Outcome, Store) {
    if id !in s.docs || userId !in UserIds(s.docs[id].members) then (NotFound, s)
    else (Done, s.(docs := s.docs[id := Left(s.docs[id], userId)]))
  }

  function BulkCheck(s: Store, id: string, userIds: seq<string>): Outcome {
    if |userIds| == 0 || |userIds| > BULK_LIMIT then BadRequest
    else if id !in s.docs then NotFound
    else Done
  }

  function BulkAddTo(s: Store, id: string, userIds: seq<string>, role: Role): (Outcome, Store) {
    if BulkCheck(s, id, userIds) != Done then (BulkCheck(s, id, userIds), s)
    else (Done, s.(docs := s.docs[id := AllJoined(s.docs[id], userIds, role)]))
  }

  function BulkRemoveFrom(s: Store, id: string, userIds: seq<string>): (Outcome, Store) {
    if BulkCheck(s, id, userIds) != Done then (BulkCheck(s, id, userIds), s)
    else (Done, s.(docs := s.docs[id := AllLeft(s.docs[id], userIds)]))
  }

  function Step(s: Store, e: Event): (Outcome, Store) {
    match e
    case Create(id, name, parentId) => if id in s.docs then (Conflict, s) else CreateCategory(s, id, name, parentId)
    case Change(id, u) => UpdateCategory(s, id, u)
    case Delete(id) => DeleteCategory(s, id)
    case AddMember(id, m) => AddMemberTo(s, id, m)
    case RemoveMember(id, userId) => RemoveMemberFrom(s, id, userId)
    case BulkAdd(id, userIds, role) => BulkAddTo(s, id, userIds, role)
    case BulkRemove(id, userIds) => BulkRemoveFrom(s, id, userIds)
  }

  function After(es: seq<Event>): Store {
    if es == [] then EMPTY else Step(After(es[..|es| - 1]), es[|es| - 1]).1
  }

  // ----- What every run keeps --------------------------------------------------------------------------

  function ParentMap(s: Store): Parents {
    map id | id in s.docs :: s.docs[id].parent
  }

  ghost predicate Tidy(c: Category) {
    Unique(c.members) && c.memberCount == |c.members|
  }

  ghost predicate Lists(ids: seq<string>, docs: map<string, Category>) {
    && (forall id :: id in ids <==> id in docs)
    && (forall i, j :: 0 <= i < j < |ids| ==> ids[i] != ids[j])
  }

  ghost predicate WellFormed(s: Store) {
    && Closed(ParentMap(s))
    && (forall id :: id in s.docs ==> Tidy(s.docs[id]))
    && Lists(s.newestFirst, s.docs)
  }

  lemma {:induction false} JoinedFacts(ms: seq<Member>, m: Member)
    requires Unique(ms) && m.userId !in UserIds(ms)
    ensures Unique(ms + [m]) && UserIds(ms + [m]) == UserIds(ms) + {m.userId}
  {
    if ms == [] {
      assert ms + [m] == [m];
    } else {
      JoinedFacts(ms[1..], m);
      assert (ms + [m])[1..] == ms[1..] + [m];
    }
  }

  lemma {:induction false} PullFacts(ms: seq<Member>, userId: string)
    requires Unique(ms)
    ensures Unique(Pull(ms, userId)) && UserIds(Pull(ms, userId)) == UserIds(ms) - {userId}
    ensures |Pull(ms, userId)| == |ms| - if userId in UserIds(ms) then 1 else 0
  {
    if ms != [] { PullFacts(ms[1..], userId); }
  }

  /** A bulk addition, with repeated ids or not, adds exactly the listed users and keeps the count. */
  lemma {:induction false} BulkAddExact(c: Category, userIds: seq<string>, role: Role)
    requires Tidy(c)
    ensures var d := AllJoined(c, userIds, role);
      && Tidy(d) && d == c.(members := d.members, memberCount := d.memberCount)
      && UserIds(d.members) == UserIds(c.members) + (set u | u in userIds)
      && c.members <= d.members
    decreases userIds
  {
    if userIds != [] {
      var u := userIds[0];
      if u !in UserIds(c.members) { JoinedFacts(c.members, Member(u, role)); }
      var c' := if u in UserIds(c.members) then c else Joined(c, Member(u, role));
      assert UserIds(c'.members) == UserIds(c.members) + {u};
      BulkAddExact(c', userIds[1..], role);
      assert (set v | v in userIds) == {u} + (set v | v in userIds[1..]);
    }
  }

  lemma {:induction false} BulkRemoveExact(c: Category, userIds: seq<string>)
    requires Tidy(c)
    ensures var d := AllLeft(c, userIds);
      && Tidy(d) && d == c.(members := d.members, memberCount := d.memberCount)
      && UserIds(d.members) == UserIds(c.members) - (set u | u in userIds)
    decreases userIds
  {
    if userIds != [] {
      var u := userIds[0];
      PullFacts(c.members, u);
      BulkRemoveExact(if u in UserIds(c.members) then Left(c, u) else c, userIds[1..]);
      assert (set v | v in userIds) == {u} + (set v | v in userIds[1..]);
    }
  }

  lemma {:induction false} WithoutFacts(ids: seq<string>, id: string)
    requires forall i, j :: 0 <= i < j < |ids| ==> ids[i] != ids[j]
    ensures var r := Without(ids, id);
      && (forall x :: x in r <==> x in ids && x != id)
      && (forall i, j :: 0 <= i < j < |r| ==> r[i] != r[j])
  {
    if ids != [] {
      WithoutFacts(ids[1..], id);
      assert forall x :: x in ids <==> x == ids[0] || x in ids[1..];
      assert forall k :: 0 <= k < |ids[1..]| ==> ids[1..][k] == ids[k + 1] && ids[k + 1] != ids[0];
      assert ids[0] !in Without(ids[1..], id);
    }
  }

  /** Replacing one document by a tidy one whose parent exists keeps the store well formed. */
  lemma ReplaceKeeps(s: Store, id: string, c: Category)
    requires WellFormed(s) && id in s.docs && Tidy(c) && (c.parent.Some? ==> c.parent.value in s.docs)
    ensures WellFormed(s.(docs := s.docs[id := c]))
    ensures ParentMap(s.(docs := s.docs[id := c])) == ParentMap(s)[id := c.parent]
  {
    var t := s.(docs := s.docs[id := c]);
    assert forall x :: x in ParentMap(t) ==> ParentMap(t)[x] == if x == id then c.parent else ParentMap(s)[x];
  }

  lemma CreateKeepsStore(s: Store, id: string, c: Category)
    requires WellFormed(s) && id !in s.docs && Tidy(c) && (c.parent.Some? ==> c.parent.value in s.docs)
    ensures var t := Store(s.docs[id := c], [id] + s.newestFirst);
      WellFormed(t) && ParentMap(t) == ParentMap(s)[id := c.parent]
  {
    var t := Store(s.docs[id := c], [id] + s.newestFirst);
    ListsOneMore(s.newestFirst, s.docs, id, c);
    assert ParentMap(t) == ParentMap(s)[id := c.parent] by {
      assert forall x :: x in ParentMap(t) ==> ParentMap(t)[x] == if x == id then c.parent else ParentMap(s)[x];
    }
  }

  lemma ListsOneMore(ids: seq<string>, docs: map<string, Category>, id: string, c: Category)
    requires Lists(ids, docs) && id !in docs
    ensures Lists([id] + ids, docs[id := c])
  {
  }

  lemma CreateKeeps(s: Store, e: Event)
    requires WellFormed(s) && e.Create?
    ensures WellFormed(Step(s, e).1)
    ensures Acyclic(ParentMap(s)) ==> Acyclic(ParentMap(Step(s, e).1))
  {
    var (o, t) := Step(s, e);
    if o == Done {
      var parent := if Given(e.parentId) then e.parentId else None;
      CreateKeepsStore(s, e.id, Category(e.name, parent, true, [], 0));
      if Acyclic(ParentMap(s)) {
        if Given(e.parentId) {
          NewChildIsHarmless(ParentMap(s), e.id, e.parentId.value);
        } else {
          FewerPointers(ParentMap(s), ParentMap(t));
        }
      }
    }
  }

  lemma DeleteKeeps(s: Store, e: Event)
    requires WellFormed(s) && e.Delete?
    ensures WellFormed(Step(s, e).1)
    ensures Acyclic(ParentMap(s)) ==> Acyclic(ParentMap(Step(s, e).1))
  {
    if Step(s, e).0 == Done {
      LeafRemoved(s, e.id);
      if Acyclic(ParentMap(s)) { FewerPointers(ParentMap(s), ParentMap(Step(s, e).1)); }
    }
  }

  lemma LeafRemoved(s: Store, id: string)
    requires WellFormed(s) && id in s.docs && !HasChildren(s, id)
    ensures var t := Store(s.docs - {id}, Without(s.newestFirst, id));
      WellFormed(t) && forall x :: x in ParentMap(t) ==> x in ParentMap(s) && ParentMap(t)[x] == ParentMap(s)[x]
  {
    ListsOneLess(s.newestFirst, s.docs, id);
    var p, q := ParentMap(s), ParentMap(Store(s.docs - {id}, Without(s.newestFirst, id)));
    assert Closed(q) by {
      assert forall x :: x in q ==> x in p && q[x] == p[x] && q[x] != Some(id);
    }
  }

  lemma ListsOneLess(ids: seq<string>, docs: map<string, Category>, id: string)
    requires Lists(ids, docs)
    ensures Lists(Without(ids, id), docs - {id})
  {
    WithoutFacts(ids, id);
  }

  lemma SameParentKeeps(s: Store, id: string, c: Category)
    requires WellFormed(s) && id in s.docs && Tidy(c) && c.parent == s.docs[id].parent
    ensures WellFormed(s.(docs := s.docs[id := c])) && ParentMap(s.(docs := s.docs[id := c])) == ParentMap(s)
  {
    assert ParentMap(s)[id] == c.parent;
    ReplaceKeeps(s, id, c);
  }

  lemma JoinKeeps(s: Store, id: string, m: Member)
    requires WellFormed(s) && id in s.docs && m.userId !in UserIds(s.docs[id].members)
    ensures var t := s.(docs := s.docs[id := Joined(s.docs[id], m)]);
      WellFormed(t) && ParentMap(t) == ParentMap(s)
  {
    JoinedFacts(s.docs[id].members, m);
    SameParentKeeps(s, id, Joined(s.docs[id], m));
  }

  lemma LeaveKeeps(s: Store, id: string, userId: string)
    requires WellFormed(s) && id in s.docs && userId in UserIds(s.docs[id].members)
    ensures var t := s.(docs := s.docs[id := Left(s.docs[id], userId)]);
      WellFormed(t) && ParentMap(t) == ParentMap(s)
  {
    PullFacts(s.docs[id].members, userId);
    SameParentKeeps(s, id, Left(s.docs[id], userId));
  }

  lemma MembershipKeeps(s: Store, e: Event)
    requires WellFormed(s) && !e.Create? && !e.Change? && !e.Delete?
    ensures WellFormed(Step(s, e).1) && ParentMap(Step(s, e).1) == ParentMap(s)
  {
    if e.id in s.docs {
      var c := s.docs[e.id];
      match e {
        case AddMember(_, m) => if m.userId !in UserIds(c.members) { JoinKeeps(s, e.id, m); }
        case RemoveMember(_, u) => if u in UserIds(c.members) { LeaveKeeps(s, e.id, u); }
        case BulkAdd(_, us, role) =>
          BulkAddExact(c, us, role);
          SameParentKeeps(s, e.id, AllJoined(c, us, role));
        case BulkRemove(_, us) =>
          BulkRemoveExact(c, us);
          SameParentKeeps(s, e.id, AllLeft(c, us));
      }
    }
  }

  /** The one thing that an update has to avoid and that the code checks only for the category itself. */
  ghost predicate Harmless(s: Store, e: Event) {
    e.Change? && Given(e.update.parentId) && Step(s, e).0 == Done ==>
      !Below(ParentMap(s), e.update.parentId.value, e.id)
  }

  /** An update keeps the forest acyclic exactly when the new parent is not the category or below it. */
  lemma UpdateExactly(s: Store, e: Event)
    requires WellFormed(s) && e.Change?
    ensures WellFormed(Step(s, e).1)
    ensures Acyclic(ParentMap(s)) ==> (Acyclic(ParentMap(Step(s, e).1)) <==> Harmless(s, e))
  {
    var (o, t) := Step(s, e);
    if o == Done {
      var c, p := s.docs[e.id], ParentMap(s);
      assert p[e.id] == c.parent;
      ReplaceKeeps(s, e.id, Changed(c, e.update));
      if Acyclic(p) {
        if Given(e.update.parentId) {
          ReparentingExactly(p, e.id, e.update.parentId.value);
        } else {
          assert p[e.id := c.parent] == p;
        }
      }
    }
  }

  /** Every run keeps parents existing, members unique and counts right; harmless updates keep a forest. */
  lemma {:induction false} EveryRun(es: seq<Event>)
    ensures WellFormed(After(es))
    ensures (forall i :: 0 <= i < |es| ==> Harmless(After(es[..i]), es[i])) ==> Acyclic(ParentMap(After(es)))
  {
    if es == [] {
      FewerPointers(map[], ParentMap(EMPTY));
    } else {
      var before, e := es[..|es| - 1], es[|es| - 1];
      EveryRun(before);
      var s := After(before);
      assert forall i :: 0 <= i < |before| ==> before[..i] == es[..i] && before[i] == es[i];
      if e.Create? { CreateKeeps(s, e); }
      else if e.Delete? { DeleteKeeps(s, e); }
      else if e.Change? { UpdateExactly(s, e); }
      else { MembershipKeeps(s, e); }
    }
  }

  // ----- What each operation refuses and stores ----------------------------------------------------------

  /** Everything but the one document is as before. */
  ghost predicate OthersKept(s: Store, t: Store, id: string) {
    forall x :: x != id ==> (x in t.docs <==> x in s.docs) && (x in s.docs ==> t.docs[x] == s.docs[x])
  }

  lemma CreateExactly(s: Store, id: string, name: string, parentId: Option<string>)
    requires id !in s.docs
    ensures var (o, t) := Step(s, Create(id, name, parentId));
      var taken, given := exists x :: x in s.docs && s.docs[x].name == name, parentId != None && parentId != Some("");
      && (o == Conflict <==> taken)
      && (o == NotFound <==> !taken && given && parentId.value !in s.docs)
      && (o == BadRequest <==> !taken && given && parentId.value in s.docs && !s.docs[parentId.value].isActive)
      && (o != Done ==> t == s)
      && (o == Done ==>
            && id in t.docs && OthersKept(s, t, id) && t.newestFirst == [id] + s.newestFirst
            && t.docs[id] == Category(name, if given then parentId else None, true, [], 0))
  {
  }

  lemma ChangeExactly(s: Store, id: string, u: Update)
    ensures var (o, t) := Step(s, Change(id, u));
      var moves := id in s.docs && u.parentId != None && u.parentId != Some("") && u.parentId != s.docs[id].parent;
      var taken := id in s.docs && u.name.Some? && u.name.value != "" && u.name.value != s.docs[id].name
                   && exists x :: x in s.docs && s.docs[x].name == u.name.value;
      && (o == Conflict <==> taken)
      && (o == NotFound <==> id !in s.docs || (!taken && moves && u.parentId.value !in s.docs))
      && (o == BadRequest <==>
            !taken && moves && u.parentId.value in s.docs
            && (!s.docs[u.parentId.value].isActive || u.parentId.value == id))
      && (o != Done ==> t == s)
  {
  }

  lemma ChangeStores(s: Store, id: string, u: Update)
    requires Step(s, Change(id, u)).0 == Done
    ensures var t := Step(s, Change(id, u)).1;
      && id in s.docs && id in t.docs && OthersKept(s, t, id) && t.newestFirst == s.newestFirst
      && var c, d := s.docs[id], t.docs[id];
         && d.members == c.members && d.memberCount == c.memberCount
         && d.name == (match u.name case Some(n) => n case None => c.name)
         && d.isActive == (match u.isActive case Some(a) => a case None => c.isActive)
         && d.parent == if u.parentId == None || u.parentId == Some("") then c.parent else u.parentId
  {
  }

  lemma DeleteExactly(s: Store, id: string)
    ensures var (o, t) := Step(s, Event.Delete(id));
      && (o == NotFound <==> id !in s.docs)
      && (o == BadRequest <==> id in s.docs && exists c :: c in s.docs && s.docs[c].parent == Some(id))
      && (o == Done <==> id in s.docs && forall c :: c in s.docs ==> s.docs[c].parent != Some(id))
      && (o != Done ==> t == s)
      && (o == Done ==> id !in t.docs && OthersKept(s, t, id) && t.newestFirst == Without(s.newestFirst, id))
  {
  }

  lemma AddMemberExactly(s: Store, id: string, m: Member)
    ensures var (o, t) := Step(s, Event.AddMember(id, m));
      && (o == NotFound <==> id !in s.docs)
      && (o == Conflict <==> id in s.docs && m.userId in UserIds(s.docs[id].members))
      && (o == Done <==> id in s.docs && m.userId !in UserIds(s.docs[id].members))
      && (o != Done ==> t == s)
      && (o == Done ==>
            && id in t.docs && OthersKept(s, t, id) && t.newestFirst == s.newestFirst
            && var c := s.docs[id];
               t.docs[id] == c.(members := c.members + [m], memberCount := c.memberCount + 1))
  {
  }

  lemma RemoveMemberExactly(s: Store, id: string, userId: string)
    requires id in s.docs ==> Tidy(s.docs[id])
    ensures var (o, t) := Step(s, Event.RemoveMember(id, userId));
      && (o == Done <==> id in s.docs && userId in UserIds(s.docs[id].members))
      && (o != Done ==> o == NotFound && t == s)
      && (o == Done ==>
            && id in t.docs && OthersKept(s, t, id) && t.newestFirst == s.newestFirst
            && var c, d := s.docs[id], t.docs[id];
               && d == c.(members := d.members, memberCount := c.memberCount - 1)
               && exists k :: 0 <= k < |c.members| && c.members[k].userId == userId
                    && d.members == c.members[..k] + c.members[k + 1..])
  {
    if id in s.docs && userId in UserIds(s.docs[id].members) {
      var k := PullOne(s.docs[id].members, userId);
    }
  }

  lemma {:induction false} PullNone(ms: seq<Member>, userId: string)
    requires userId !in UserIds(ms)
    ensures Pull(ms, userId) == ms
  {
    if ms != [] { PullNone(ms[1..], userId); }
  }

  /** Of unique members exactly one goes, and the others keep their places. */
  lemma {:induction false} PullOne(ms: seq<Member>, userId: string) returns (k: nat)
    requires Unique(ms) && userId in UserIds(ms)
    ensures k < |ms| && ms[k].userId == userId && Pull(ms, userId) == ms[..k] + ms[k + 1..]
  {
    if ms[0].userId == userId {
      k := 0;
      PullNone(ms[1..], userId);
    } else {
      var j := PullOne(ms[1..], userId);
      k := j + 1;
      assert ms[..k] == [ms[0]] + ms[1..][..j] && ms[k + 1..] == ms[1..][j + 1..];
    }
  }

  /** A bulk operation refuses empty and long lists and unknown categories, in this order. */
  lemma BulkRefusals(s: Store, id: string, userIds: seq<string>, role: Role)
    ensures Step(s, Event.BulkAdd(id, userIds, role)).0 == Step(s, Event.BulkRemove(id, userIds)).0
    ensures var (o, t) := Step(s, Event.BulkAdd(id, userIds, role));
      && o == (if userIds == [] || |userIds| > 1000 then BadRequest else if id !in s.docs then NotFound else Done)
      && (o != Done ==> t == s)
      && (o == Done ==> id in t.docs && OthersKept(s, t, id) && t.newestFirst == s.newestFirst)
    ensures var (o, t) := Step(s, Event.BulkRemove(id, userIds));
      && (o != Done ==> t == s)
      && (o == Done ==> id in t.docs && OthersKept(s, t, id) && t.newestFirst == s.newestFirst)
  {
  }

  /** A bulk addition is one addition after the other: of those who are not yet members, with the given role. */
  lemma {:induction false} BulkAddInTurn(c: Category, first: seq<string>, rest: seq<string>, role: Role)
    ensures AllJoined(c, first + rest, role) == AllJoined(AllJoined(c, first, role), rest, role)
    ensures |first| == 1 ==>
      AllJoined(c, first, role) ==
        if first[0] in UserIds(c.members) then c
        else c.(members := c.members + [Member(first[0], role)], memberCount := c.memberCount + 1)
    decreases first
  {
    if first == [] {
      assert first + rest == rest;
    } else {
      var u := first[0];
      BulkAddInTurn(if u in UserIds(c.members) then c else Joined(c, Member(u, role)), first[1..], rest, role);
      assert (first + rest)[0] == u && (first + rest)[1..] == first[1..] + rest;
    }
  }

  /** A bulk removal is one removal after the other, of those who are still members. */
  lemma {:induction false} BulkRemoveInTurn(c: Category, first: seq<string>, rest: seq<string>)
    ensures AllLeft(c, first + rest) == AllLeft(AllLeft(c, first), rest)
    ensures |first| == 1 ==>
      AllLeft(c, first) ==
        if first[0] !in UserIds(c.members) then c
        else c.(members := Pull(c.members, first[0]), memberCount := c.memberCount - 1)
    decreases first
  {
    if first == [] {
      assert first + rest == rest;
    } else {
      var u := first[0];
      BulkRemoveInTurn(if u in UserIds(c.members) then Left(c, u) else c, first[1..], rest);
      assert (first + rest)[0] == u && (first + rest)[1..] == first[1..] + rest;
    }
  }

  /** The new members of a bulk addition come after the old ones and have the given role. */
  lemma {:induction false} BulkAddRoles(c: Category, userIds: seq<string>, role: Role)
    ensures var d := AllJoined(c, userIds, role);
      && |c.members| <= |d.members| && d.members[..|c.members|] == c.members
      && forall i :: |c.members| <= i < |d.members| ==> d.members[i].role == role && d.members[i].userId in userIds
    decreases userIds
  {
    if userIds != [] {
      var u := userIds[0];
      var c' := if u in UserIds(c.members) then c else Joined(c, Member(u, role));
      BulkAddRoles(c', userIds[1..], role);
      var d := AllJoined(c, userIds, role);
      assert forall i :: 0 <= i < |c'.members| ==> d.members[i] == d.members[..|c'.members|][i];
    }
  }

  // ----- The order of creation ---------------------------------------------------------------------------

  /** How many events had happened when the category was created; zero if it never was. */
  function Birth(es: seq<Event>, id: string): nat {
    if es == [] then 0
    else
      var before, e := es[..|es| - 1], es[|es| - 1];
      if e.Create? && e.id == id && Step(After(before), e).0 == Done then |es| else Birth(before, id)
  }

  lemma {:induction false} BirthBound(es: seq<Event>, id: string)
    ensures Birth(es, id) <= |es|
  {
    if es != [] { BirthBound(es[..|es| - 1], id); }
  }

  ghost predicate Younger(es: seq<Event>, ids: seq<string>) {
    ids != [] ==> (forall x :: x in ids[1..] ==> Birth(es, ids[0]) > Birth(es, x)) && Younger(es, ids[1..])
  }

  lemma {:induction false} YoungerWithout(es: seq<Event>, ids: seq<string>, id: string)
    requires Younger(es, ids)
    ensures Younger(es, Without(ids, id)) && forall x :: x in Without(ids, id) ==> x in ids
  {
    if ids != [] {
      YoungerWithout(es, ids[1..], id);
      assert forall x :: x in ids[1..] ==> x in ids;
    }
  }

  lemma {:induction false} YoungerStill(es: seq<Event>, longer: seq<Event>, ids: seq<string>)
    requires Younger(es, ids) && forall x :: x in ids ==> Birth(longer, x) == Birth(es, x)
    ensures Younger(longer, ids)
  {
    if ids != [] {
      assert forall x :: x in ids[1..] ==> x in ids;
      YoungerStill(es, longer, ids[1..]);
    }
  }

  lemma OrderStep(s: Store, e: Event)
    ensures var (o, t) := Step(s, e);
      t.newestFirst == if o == Done && e.Create? then [e.id] + s.newestFirst
                       else if o == Done && e.Delete? then Without(s.newestFirst, e.id)
                       else s.newestFirst
  {
  }

  lemma YoungerCreated(es: seq<Event>, ids: seq<string>, id: string)
    requires es != [] && Birth(es, id) == |es| && Younger(es[..|es| - 1], ids) && id !in ids
    requires forall x :: x in ids ==> Birth(es, x) == Birth(es[..|es| - 1], x)
    ensures Younger(es, [id] + ids)
  {
    YoungerStill(es[..|es| - 1], es, ids);
    forall x | x in ids ensures Birth(es, x) < |es| { BirthBound(es[..|es| - 1], x); }
    assert ([id] + ids)[1..] == ids;
  }

  /** In every run the store lists the categories from the youngest to the oldest. */
  lemma {:induction false} NewestFirst(es: seq<Event>)
    ensures Younger(es, After(es).newestFirst)
  {
    if es != [] {
      var before, e := es[..|es| - 1], es[|es| - 1];
      NewestFirst(before);
      EveryRun(before);
      var ids, o := After(before).newestFirst, Step(After(before), e).0;
      OrderStep(After(before), e);
      if e.Create? && o == Done {
        CreateIsNew(After(before), e);
        YoungerCreated(es, ids, e.id);
      } else {
        YoungerStill(before, es, ids);
        if e.Delete? && o == Done { YoungerWithout(es, ids, e.id); }
      }
    }
  }

  lemma CreateIsNew(s: Store, e: Event)
    requires e.Create? && Step(s, e).0 == Done && Lists(s.newestFirst, s.docs)
    ensures e.id !in s.newestFirst
  {
  }

  // ----- Names ----------------------------------------------------------------------------------------

  ghost predicate NamesUnique(s: Store) {
    forall x, y :: x in s.docs && y in s.docs && s.docs[x].name == s.docs[y].name != "" ==> x == y
  }

  lemma MembershipKeepsNames(s: Store, e: Event)
    requires WellFormed(s) && !e.Create? && !e.Change? && !e.Delete?
    ensures var t := Step(s, e).1;
      t.docs.Keys == s.docs.Keys && forall x :: x in s.docs ==> t.docs[x].name == s.docs[x].name
  {
    if e.id in s.docs {
      if e.BulkAdd? { BulkAddExact(s.docs[e.id], e.userIds, e.role); }
      if e.BulkRemove? { BulkRemoveExact(s.docs[e.id], e.userIds); }
    }
  }

  lemma NamesStep(s: Store, e: Event)
    requires WellFormed(s) && NamesUnique(s)
    ensures NamesUnique(Step(s, e).1)
  {
    match e
    case Create(_, _, _) =>
    case Change(id, u) =>
    case Delete(_) =>
    case _ => MembershipKeepsNames(s, e);
  }

  /** No two categories ever share a name, except the empty one. */
  lemma {:induction false} NamesStayUnique(es: seq<Event>)
    ensures NamesUnique(After(es))
  {
    if es != [] {
      NamesStayUnique(es[..|es| - 1]);
      EveryRun(es[..|es| - 1]);
      NamesStep(After(es[..|es| - 1]), es[|es| - 1]);
    }
  }

  ghost predicate NamesDistinct(s: Store) {
    forall x, y :: x in s.docs && y in s.docs && s.docs[x].name == s.docs[y].name ==> x == y
  }

  /** An update makes two names the same exactly if it gives the empty name while another category has it. */
  lemma RenameExactly(s: Store, e: Event)
    requires NamesDistinct(s) && e.Change?
    ensures NamesDistinct(Step(s, e).1) <==>
      !(Step(s, e).0 == Done && e.update.name == Some("")
        && exists x :: x in s.docs && x != e.id && s.docs[x].name == "")
  {
    var t := Step(s, e).1;
    if Step(s, e).0 == Done && e.update.name == Some("") {
      assert t.docs[e.id].name == "";
      assert forall x :: x in s.docs && x != e.id ==> t.docs[x] == s.docs[x];
    }
  }

  /** The exception is real: any number of categories can be renamed to the empty name. */
  lemma {:induction false} EmptyNamesCollide(s: Store, ids: seq<string>) returns (es: seq<Event>, t: Store)
    requires forall i :: 0 <= i < |ids| ==> ids[i] in s.docs
    ensures |es| == |ids| && t == Applied(s, es) && t.docs.Keys == s.docs.Keys
    ensures forall i :: 0 <= i < |ids| ==> t.docs[ids[i]].name == ""
  {
    if ids == [] {
      es, t := [], s;
    } else {
      var k := |ids| - 1;
      var before, u := EmptyNamesCollide(s, ids[..k]);
      es := before + [Change(ids[k], Update(Some(""), None, None))];
      t := Step(u, es[k]).1;
      assert es[..k] == before;
    }
  }

  function Applied(s: Store, es: seq<Event>): Store {
    if es == [] then s else Step(Applied(s, es[..|es| - 1]), es[|es| - 1]).1
  }

  /** Not every update is harmless: the parent of a category can be moved below it. */
  lemma TwoStepCycle()
    ensures var s := After([Create("a", "a", None), Create("b", "b", Some("a"))]);
      var (o, t) := Step(s, Change("a", Update(None, Some("b"), None)));
      o == Done && !Acyclic(ParentMap(t))
  {
    var es := [Create("a", "a", None), Create("b", "b", Some("a"))];
    assert es[..1] == [Create("a", "a", None)] && es[..1][..0] == [];
    assert "b" != "a" by { assert "b"[0] != "a"[0]; }
    assert After(es[..1]) == Step(After([]), Create("a", "a", None)).1;
    var s := After(es);
    assert s == Step(After(es[..1]), Create("b", "b", Some("a"))).1;
    assert s.docs["a"].parent == None && s.docs["b"].parent == Some("a");
    var t := Step(s, Change("a", Update(None, Some("b"), None))).1;
    assert Walk(ParentMap(t), "a", 2) == Walk(ParentMap(t), "b", 1) == Walk(ParentMap(t), "a", 0);
  }

  // ----- The service object -------------------------------------------------------------------------------

  class CategoryService {
    var docs: map<string, Category>
    var newestFirst: seq<string>

    ghost function View(): Store
      reads this
    {
      Store(docs, newestFirst)
    }

    constructor ()
      ensures View() == EMPTY
    {
      docs, newestFirst := map[], [];
    }

    method Create(id: string, name: string, parentId: Option<string>) returns (o: Outcome)
      requires id !in docs
      modifies this
      ensures (o, View()) == Step(old(View()), Event.Create(id, name, parentId))
    {
      if exists c :: c in docs && docs[c].name == name { return Conflict; }
      var parent := None;
      if parentId.Some? && parentId.value != "" {
        if parentId.value !in docs { return NotFound; }
        if !docs[parentId.value].isActive { return BadRequest; }
        parent := parentId;
      }
      docs := docs[id := Category(name, parent, true, [], 0)];
      newestFirst := [id] + newestFirst;
      return Done;
    }

    method Change(id: string, u: Update) returns (o: Outcome)
      modifies this`docs
      ensures (o, View()) == Step(old(View()), Event.Change(id, u))
    {
      if id !in docs { return NotFound; }
      var existing := docs[id];
      if u.name.Some? && u.name.value != "" && u.name.value != existing.name {
        if exists c :: c in docs && docs[c].name == u.name.value { return Conflict; }
      }
      if u.parentId.Some? {
        if u.parentId.value != "" && u.parentId != existing.parent {
          if u.parentId.value !in docs { return NotFound; }
          if !docs[u.parentId.value].isActive { return BadRequest; }
          if u.parentId.value == id { return BadRequest; }
        }
      }
      if u.name.Some? { existing := existing.(name := u.name.value); }
      if u.isActive.Some? { existing := existing.(isActive := u.isActive.value); }
      if u.parentId.Some? && u.parentId.value != "" { existing := existing.(parent := u.parentId); }
      docs := docs[id := existing];
      return Done;
    }

    method Delete(id: string) returns (o: Outcome)
      modifies this
      ensures (o, View()) == Step(old(View()), Event.Delete(id))
    {
      if id !in docs { return NotFound; }
      if exists c :: c in docs && docs[c].parent == Some(id) { return BadRequest; }
      docs := docs - {id};
      newestFirst := Without(newestFirst, id);
      return Done;
    }

    method AddMember(id: string, m: Member) returns (o: Outcome)
      modifies this`docs
      ensures (o, View()) == Step(old(View()), Event.AddMember(id, m))
    {
      if id !in docs { return NotFound; }
      var existing := FindMember(docs[id].members, m.userId);
      if existing { return Conflict; }
      docs := docs[id := Joined(docs[id], m)];
      return Done;
    }

    method RemoveMember(id: string, userId: string) returns (o: Outcome)
      modifies this`docs
      ensures (o, View()) == Step(old(View()), Event.RemoveMember(id, userId))
    {
      if id !in docs { return NotFound; }
      var existing := FindMember(docs[id].members, userId);
      if !existing { return NotFound; }
      docs := docs[id := Left(docs[id], userId)];
      return Done;
    }

    /** One `findMember` and one write per listed user. */
    method BulkAdd(id: string, userIds: seq<string>, role: Role) returns (o: Outcome)
      modifies this`docs
      ensures (o, View()) == Step(old(View()), Event.BulkAdd(id, userIds, role))
    {
      if |userIds| == 0 { return BadRequest; }
      if |userIds| > BULK_LIMIT { return BadRequest; }
      if id !in docs { return NotFound; }
      ghost var start := docs;
      var i := 0;
      while i < |userIds|
        invariant 0 <= i <= |userIds| && id in docs && docs == start[id := docs[id]]
        invariant AllJoined(start[id], userIds, role) == AllJoined(docs[id], userIds[i..], role)
      {
        var existing := FindMember(docs[id].members, userIds[i]);
        assert userIds[i..][1..] == userIds[i + 1..];
        if !existing {
          docs := docs[id := Joined(docs[id], Member(userIds[i], role))];
        }
        i := i + 1;
      }
      return Done;
    }

    method BulkRemove(id: string, userIds: seq<string>) returns (o: Outcome)
      modifies this`docs
      ensures (o, View()) == Step(old(View()), Event.BulkRemove(id, userIds))
    {
      if |userIds| == 0 { return BadRequest; }
      if |userIds| > BULK_LIMIT { return BadRequest; }
      if id !in docs { return NotFound; }
      ghost var start := docs;
      var i := 0;
      while i < |userIds|
        invariant 0 <= i <= |userIds| && id in docs && docs == start[id := docs[id]]
        invariant AllLeft(start[id], userIds) == AllLeft(docs[id], userIds[i..])
      {
        var existing := FindMember(docs[id].members, userIds[i]);
        assert userIds[i..][1..] == userIds[i + 1..];
        if existing {
          docs := docs[id := Left(docs[id], userIds[i])];
        }
        i := i + 1;
      }
      return Done;
    }
  }

  method FindMember(members: seq<Member>, userId: string) returns (found: bool)
    ensures found <==> userId in UserIds(members)
  {
    var i := 0;
    while i < |members|
      invariant 0 <= i <= |members|
      invariant userId in UserIds(members) <==> userId in UserIds(members[i..])
    {
      if members[i].userId == userId { return true; }
      assert members[i..][1..] == members[i + 1..];
      i := i + 1;
    }
    return false;
  }
}
