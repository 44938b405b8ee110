/**
 From categories to the users that a notification is sent to.

 `GetSubcategoryUsers` asks for the children of a category page by page, but only ever for the first
 page of ten, newest first, and recurs.  Its result is compared with the declarative meaning: the
 members of all descendants that are reached through categories whose `isActive` equals the flag.
*/
module CategoryTargeting {
  import opened Wrappers
  import opened CategoryForest
  import opened Categories

  const PAGE_LIMIT := 10

  datatype Targets = Found(userIds: set<string>) | Missing

  /** `c` is a child that the query for `top` matches. */
  predicate Matches(s: Store, active: bool, c: string, top: string) {
    c in s.docs && s.docs[c].parent == Some(top) && s.docs[c].isActive == active
  }

  function Matching(s: Store, ids: seq<string>, active: bool, top: string): seq<string> {
    if ids == [] then []
    else if Matches(s, active, ids[0], top) then [ids[0]] + Matching(s, ids[1..], active, top)
    else Matching(s, ids[1..], active, top)
  }

  function Children(s: Store, active: bool, top: string): seq<string> {
    Matching(s, s.newestFirst, active, top)
  }

  /** What `getCategories` returns with its default pagination. */
  function Page(s: Store, active: bool, top: string): seq<string> {
    var all := Children(s, active, top);
    if |all| <= PAGE_LIMIT then all else all[..PAGE_LIMIT]
  }

  /** One link from a child to its parent; with `paged`, only if the child is on the page. */
  ghost predicate Link(s: Store, active: bool, paged: bool, c: string, top: string) {
    Matches(s, active, c, top) && (paged ==> c in Page(s, active, top))
  }

  ghost predicate Chain(s: Store, active: bool, paged: bool, y: string, top: string, n: nat)
    decreases n
  {
    && n > 0 && y in s.docs && s.docs[y].parent.Some?
    && Link(s, active, paged, y, s.docs[y].parent.value)
    && if n == 1 then s.docs[y].parent.value == top
       else Chain(s, active, paged, s.docs[y].parent.value, top, n - 1)
  }

  /** `y` is a proper descendant of `top`, reached through links. */
  ghost predicate Reached(s: Store, active: bool, paged: bool, y: string, top: string) {
    exists n: nat :: Chain(s, active, paged, y, top, n)
  }

  ghost function UsersBelow(s: Store, active: bool, paged: bool, top: string, excluded: seq<string>): set<string> {
    set y, u |
      y in s.docs && Reached(s, active, paged, y, top) && u in UserIds(s.docs[y].members) && u !in excluded :: u
  }

  /** Neither `top` nor anything reached from it has more matching children than fit on a page. */
  ghost predicate SmallFamilies(s: Store, active: bool, top: string) {
    forall x :: x == top || Reached(s, active, false, x, top) ==> |Children(s, active, x)| <= PAGE_LIMIT
  }

  // ----- Chains --------------------------------------------------------------------------------------

  lemma {:induction false} MatchingFacts(s: Store, ids: seq<string>, active: bool, top: string)
    ensures forall c :: c in Matching(s, ids, active, top) <==> c in ids && Matches(s, active, c, top)
    ensures NoRepeats(ids) ==> NoRepeats(Matching(s, ids, active, top))
  {
    if ids != [] {
      MatchingFacts(s, ids[1..], active, top);
      assert forall c :: c in ids <==> c == ids[0] || c in ids[1..];
      if NoRepeats(ids) {
        assert forall k :: 0 <= k < |ids[1..]| ==> ids[1..][k] == ids[k + 1] && ids[k + 1] != ids[0];
        assert ids[0] !in Matching(s, ids[1..], active, top);
      }
    }
  }

  ghost predicate NoRepeats(ids: seq<string>) {
    forall i, j :: 0 <= i < j < |ids| ==> ids[i] != ids[j]
  }

  /** The topmost link of a chain, seen from the top. */
  lemma {:induction false} TopLink(s: Store, active: bool, paged: bool, y: string, top: string, n: nat)
    returns (c: string)
    requires Chain(s, active, paged, y, top, n)
    ensures Link(s, active, paged, c, top)
    ensures if n == 1 then c == y else Chain(s, active, paged, y, c, n - 1)
    decreases n
  {
    if n == 1 {
      c := y;
    } else {
      c := TopLink(s, active, paged, s.docs[y].parent.value, top, n - 1);
    }
  }

  lemma {:induction false} ExtendChain(s: Store, active: bool, paged: bool, y: string, c: string, top: string, n: nat)
    requires Chain(s, active, paged, y, c, n) && Link(s, active, paged, c, top)
    ensures Chain(s, active, paged, y, top, n + 1)
    decreases n
  {
    if n > 1 { ExtendChain(s, active, paged, s.docs[y].parent.value, c, top, n - 1); }
    else { assert Chain(s, active, paged, c, top, 1); }
  }

  /** Whatever is reached is a linked child or reached from one. */
  lemma ReachedThroughChild(s: Store, active: bool, paged: bool, y: string, top: string)
    ensures Reached(s, active, paged, y, top)
       <==> exists c :: Link(s, active, paged, c, top) && (y == c || Reached(s, active, paged, y, c))
  {
    if n: nat :| Chain(s, active, paged, y, top, n) {
      var c := TopLink(s, active, paged, y, top, n);
    }
    if c :| Link(s, active, paged, c, top) && (y == c || Reached(s, active, paged, y, c)) {
      if y == c {
        assert Chain(s, active, paged, y, top, 1);
      } else {
        var n: nat :| Chain(s, active, paged, y, c, n);
        ExtendChain(s, active, paged, y, c, top, n);
      }
    }
  }

  // ----- The page limit --------------------------------------------------------------------------------

  lemma {:induction false} ChainsAgree(s: Store, active: bool, y: string, top: string, n: nat)
    requires WellFormed(s)
    ensures Chain(s, active, true, y, top, n) ==> Chain(s, active, false, y, top, n)
    ensures SmallFamilies(s, active, top) && Chain(s, active, false, y, top, n) ==> Chain(s, active, true, y, top, n)
    decreases n
  {
    if n > 0 && y in s.docs && s.docs[y].parent.Some? {
      var p := s.docs[y].parent.value;
      MatchingFacts(s, s.newestFirst, active, p);
      ChainsAgree(s, active, p, top, n - 1);
      if SmallFamilies(s, active, top) && Chain(s, active, false, y, top, n) {
        assert p == top || Reached(s, active, false, p, top);
      }
    }
  }

  /** Paging only loses descendants, and loses none when no family below has more than ten matching children. */
  lemma PagingIsSound(s: Store, active: bool, top: string, excluded: seq<string>)
    requires WellFormed(s)
    ensures UsersBelow(s, active, true, top, excluded) <= UsersBelow(s, active, false, top, excluded)
    ensures SmallFamilies(s, active, top) ==>
      UsersBelow(s, active, true, top, excluded) == UsersBelow(s, active, false, top, excluded)
  {
    forall y, n: nat {
      ChainsAgree(s, active, y, top, n);
    }
    assert forall y :: Reached(s, active, true, y, top) ==> Reached(s, active, false, y, top);
    if SmallFamilies(s, active, top) {
      assert forall y :: Reached(s, active, false, y, top) ==> Reached(s, active, true, y, top);
    }
  }

  /** A link that closes a chain is a link of that chain, whichever way the chain goes. */
  lemma BottomLink(s: Store, active: bool, paged: bool, y: string, top: string)
    requires y in s.docs && Reached(s, active, paged, y, top)
    ensures s.docs[y].parent.Some? && Link(s, active, paged, y, s.docs[y].parent.value)
  {
    var n: nat :| Chain(s, active, paged, y, top, n);
  }

  lemma ChildOfReached(s: Store, active: bool, paged: bool, y: string, x: string, top: string)
    requires Link(s, active, paged, y, x) && (x == top || Reached(s, active, paged, x, top))
    ensures Reached(s, active, paged, y, top)
  {
    if x == top {
      assert Chain(s, active, paged, y, top, 1);
    } else {
      var n: nat :| Chain(s, active, paged, x, top, n);
      assert Chain(s, active, paged, y, top, n + 1);
    }
  }

  /** The limit of ten is also necessary: a larger family below has a child that is never reached. */
  lemma PagingExactly(s: Store, active: bool, top: string)
    requires WellFormed(s)
    ensures SmallFamilies(s, active, top)
       <==> forall y :: Reached(s, active, false, y, top) ==> Reached(s, active, true, y, top)
  {
    if SmallFamilies(s, active, top) {
      forall y, n: nat {
        ChainsAgree(s, active, y, top, n);
      }
    } else {
      var x :| (x == top || Reached(s, active, false, x, top)) && |Children(s, active, x)| > PAGE_LIMIT;
      var y := Children(s, active, x)[PAGE_LIMIT];
      MatchingFacts(s, s.newestFirst, active, x);
      assert y in Children(s, active, x) && y !in Page(s, active, x);
      ChildOfReached(s, active, false, y, x, top);
      if Reached(s, active, true, y, top) {
        BottomLink(s, active, true, y, top);
        assert false;
      }
    }
  }

  // ----- Which children are on the page ----------------------------------------------------------------------

  lemma {:induction false} YoungerMatching(es: seq<Event>, s: Store, ids: seq<string>, active: bool, top: string)
    requires Younger(es, ids)
    ensures Younger(es, Matching(s, ids, active, top)) && forall x :: x in Matching(s, ids, active, top) ==> x in ids
  {
    if ids != [] {
      YoungerMatching(es, s, ids[1..], active, top);
      assert forall x :: x in ids[1..] ==> x in ids;
      if Matches(s, active, ids[0], top) {
        assert ([ids[0]] + Matching(s, ids[1..], active, top))[1..] == Matching(s, ids[1..], active, top);
      }
    }
  }

  lemma {:induction false} YoungerSplit(es: seq<Event>, ids: seq<string>, n: nat, x: string, y: string)
    requires Younger(es, ids) && n <= |ids| && x in ids[..n] && y in ids[n..]
    ensures Birth(es, x) > Birth(es, y)
  {
    if x == ids[0] {
      assert y in ids[1..];
    } else {
      assert ids[..n] == [ids[0]] + ids[1..][..n - 1] && ids[n..] == ids[1..][n - 1..];
      YoungerSplit(es, ids[1..], n - 1, x, y);
    }
  }

  /** The page holds the ten newest matching children, or all of them if there are no more. */
  lemma PageIsNewest(es: seq<Event>, active: bool, top: string)
    ensures var s := After(es);
      var page := Page(s, active, top);
      && |page| <= 10
      && (forall c :: c in page ==> c in s.docs && s.docs[c].parent == Some(top) && s.docs[c].isActive == active)
      && (forall c :: c in s.docs && s.docs[c].parent == Some(top) && s.docs[c].isActive == active && c !in page ==>
            |page| == 10 && forall d :: d in page ==> Birth(es, d) > Birth(es, c))
      && Younger(es, page)
  {
    var s := After(es);
    EveryRun(es);
    NewestFirst(es);
    PageExactly(s, active, top);
    YoungerMatching(es, s, s.newestFirst, active, top);
    FirstTenAreYoungest(es, Children(s, active, top));
    MatchingFacts(s, s.newestFirst, active, top);
  }

  lemma FirstTenAreYoungest(es: seq<Event>, all: seq<string>)
    requires Younger(es, all)
    ensures var page := if |all| <= 10 then all else all[..10];
      && Younger(es, page)
      && forall c, d :: c in all && c !in page && d in page ==> Birth(es, d) > Birth(es, c)
  {
    var page := if |all| <= 10 then all else all[..10];
    YoungerPrefix(es, all, |page|);
    forall c, d | c in all && c !in page && d in page ensures Birth(es, d) > Birth(es, c) {
      assert all == all[..10] + all[10..];
      YoungerSplit(es, all, 10, d, c);
    }
  }

  lemma {:induction false} YoungerPrefix(es: seq<Event>, ids: seq<string>, n: nat)
    requires Younger(es, ids) && n <= |ids|
    ensures Younger(es, ids[..n])
  {
    if n > 0 {
      YoungerPrefix(es, ids[1..], n - 1);
      assert ids[..n][1..] == ids[1..][..n - 1];
      assert forall x :: x in ids[1..][..n - 1] ==> x in ids[1..];
    }
  }

  // ----- When the recursion ends ---------------------------------------------------------------------------

  /** The recursion from `top` makes at most `n` nested calls. */
  ghost predicate Ends(s: Store, active: bool, top: string, n: nat)
    decreases n
  {
    n > 0 && forall c :: c in Page(s, active, top) ==> Ends(s, active, c, n - 1)
  }

  /** The categories that the recursion from `top` calls itself with. */
  ghost function Walked(s: Store, active: bool, top: string): set<string> {
    set y | y in s.docs && Reached(s, active, true, y, top)
  }

  /** Neither `top` nor a category that the recursion comes to is reached from itself. */
  ghost predicate NoLoop(s: Store, active: bool, top: string) {
    forall x :: x == top || Reached(s, active, true, x, top) ==> !Reached(s, active, true, x, x)
  }

  lemma {:induction false} ChainsJoin(s: Store, active: bool, y: string, x: string, top: string, m: nat, n: nat)
    requires Chain(s, active, true, y, x, m) && Chain(s, active, true, x, top, n)
    ensures Chain(s, active, true, y, top, m + n)
    decreases m
  {
    if m > 1 { ChainsJoin(s, active, s.docs[y].parent.value, x, top, m - 1, n); }
  }

  lemma ReachedFurther(s: Store, active: bool, y: string, x: string, top: string)
    requires Reached(s, active, true, y, x) && Reached(s, active, true, x, top)
    ensures Reached(s, active, true, y, top)
  {
    var m: nat :| Chain(s, active, true, y, x, m);
    var n: nat :| Chain(s, active, true, x, top, n);
    ChainsJoin(s, active, y, x, top, m, n);
  }

  /** Below a child that is called there is less to walk, and no loop either. */
  lemma WalkShrinks(s: Store, active: bool, top: string, child: string)
    requires NoLoop(s, active, top) && Link(s, active, true, child, top)
    ensures NoLoop(s, active, child) && Walked(s, active, child) < Walked(s, active, top)
  {
    assert Chain(s, active, true, child, top, 1);
    forall y | Reached(s, active, true, y, child) ensures Reached(s, active, true, y, top) {
      ReachedFurther(s, active, y, child, top);
    }
    assert child in Walked(s, active, top) && child !in Walked(s, active, child);
  }

  lemma {:induction false} EndsLater(s: Store, active: bool, top: string, m: nat, n: nat)
    requires Ends(s, active, top, m) && m <= n
    ensures Ends(s, active, top, n)
    decreases m
  {
    forall c | c in Page(s, active, top) ensures Ends(s, active, c, n - 1) {
      EndsLater(s, active, c, m - 1, n - 1);
    }
  }

  lemma OnPageIsLink(s: Store, active: bool, top: string, c: string)
    ensures c in Page(s, active, top) ==> Link(s, active, true, c, top)
  {
    MatchingFacts(s, s.newestFirst, active, top);
    if c in Page(s, active, top) { assert c in Children(s, active, top); }
  }

  lemma SmallerSet(a: set<string>, b: set<string>)
    requires a < b
    ensures |a| < |b|
  {
    assert b - a != {} by { assert !(b <= a); }
    var x :| x in b - a;
    assert a <= b - {x};
    Subset(a, b - {x});
  }

  lemma {:induction false} Subset(a: set<string>, b: set<string>)
    requires a <= b
    ensures |a| <= |b|
  {
    if x :| x in a { Subset(a - {x}, b - {x}); }
  }

  /** Without a loop the recursion is no deeper than the number of categories that it walks. */
  lemma {:induction false} EndsWithin(s: Store, active: bool, top: string)
    requires NoLoop(s, active, top)
    ensures Ends(s, active, top, |Walked(s, active, top)| + 1)
    decreases Walked(s, active, top)
  {
    forall c | c in Page(s, active, top) ensures Ends(s, active, c, |Walked(s, active, top)|) {
      OnPageIsLink(s, active, top, c);
      WalkShrinks(s, active, top, c);
      SmallerSet(Walked(s, active, c), Walked(s, active, top));
      EndsWithin(s, active, c);
      EndsLater(s, active, c, |Walked(s, active, c)| + 1, |Walked(s, active, top)|);
    }
  }

  lemma {:induction false} EndsBelow(s: Store, active: bool, y: string, top: string, m: nat, n: nat)
    requires Ends(s, active, top, n) && Chain(s, active, true, y, top, m)
    ensures m < n && Ends(s, active, y, n - m)
    decreases m
  {
    var c := TopLink(s, active, true, y, top, m);
    if m > 1 { EndsBelow(s, active, y, c, m - 1, n - 1); }
  }

  lemma {:induction false} LoopNeverEnds(s: Store, active: bool, x: string, m: nat, n: nat)
    requires Chain(s, active, true, x, x, m)
    ensures !Ends(s, active, x, n)
    decreases n
  {
    if Ends(s, active, x, n) {
      EndsBelow(s, active, x, x, m, n);
      LoopNeverEnds(s, active, x, m, n - m);
    }
  }

  /** The recursion from `top` ends exactly if it does not come to a category that is reached from itself. */
  lemma EndsExactly(s: Store, active: bool, top: string)
    ensures (exists n: nat :: Ends(s, active, top, n)) <==> NoLoop(s, active, top)
  {
    if NoLoop(s, active, top) {
      EndsWithin(s, active, top);
      var n := |Walked(s, active, top)| + 1;
      assert Ends(s, active, top, n);
    } else if n: nat :| Ends(s, active, top, n) {
      var x :| (x == top || Reached(s, active, true, x, top)) && Reached(s, active, true, x, x);
      var m: nat :| Chain(s, active, true, x, x, m);
      if x == top {
        LoopNeverEnds(s, active, x, m, n);
      } else {
        var k: nat :| Chain(s, active, true, x, top, k);
        EndsBelow(s, active, x, top, k, n);
        LoopNeverEnds(s, active, x, m, n - k);
      }
    }
  }

  lemma {:induction false} ChainIsWalk(s: Store, active: bool, y: string, top: string, n: nat)
    requires Chain(s, active, true, y, top, n)
    ensures Walk(ParentMap(s), y, n) == Some(top)
    decreases n
  {
    if n > 1 { ChainIsWalk(s, active, s.docs[y].parent.value, top, n - 1); }
    else { assert Walk(ParentMap(s), top, 0) == Some(top); }
  }

  /** On a forest it always ends. */
  lemma ForestEnds(s: Store, active: bool, top: string)
    requires Acyclic(ParentMap(s))
    ensures NoLoop(s, active, top)
  {
    forall x ensures !Reached(s, active, true, x, x) {
      if n: nat :| Chain(s, active, true, x, x, n) { ChainIsWalk(s, active, x, x, n); }
    }
  }

  // ----- The service code ---------------------------------------------------------------------------------

  method MembersOf(c: Category, excluded: seq<string>) returns (users: set<string>)
    ensures users == set u | u in UserIds(c.members) && u !in excluded
  {
    users := {};
    var i := 0;
    while i < |c.members|
      invariant 0 <= i <= |c.members|
      invariant users + (set u | u in UserIds(c.members[i..]) && u !in excluded)
             == set u | u in UserIds(c.members) && u !in excluded
    {
      assert c.members[i..][1..] == c.members[i + 1..];
      if c.members[i].userId !in excluded {
        users := users + {c.members[i].userId};
      }
      i := i + 1;
    }
  }

  method FindMany(s: Store, active: bool, top: string) returns (page: seq<string>)
    ensures page == Page(s, active, top)
  {
    page := [];
    var i := 0;
    while i < |s.newestFirst|
      invariant 0 <= i <= |s.newestFirst|
      invariant Children(s, active, top) == page + Matching(s, s.newestFirst[i..], active, top)
    {
      assert s.newestFirst[i..][1..] == s.newestFirst[i + 1..];
      if Matches(s, active, s.newestFirst[i], top) {
        page := page + [s.newestFirst[i]];
      }
      i := i + 1;
    }
    if |page| > PAGE_LIMIT { page := page[..PAGE_LIMIT]; }
  }

  /** What is on the page of any store: at most ten, all matching, and all that match if there are fewer. */
  lemma PageExactly(s: Store, active: bool, top: string)
    ensures var page := Page(s, active, top);
      && |page| <= 10
      && (forall c :: c in page ==> c in s.docs && s.docs[c].parent == Some(top) && s.docs[c].isActive == active)
      && (|page| < 10 ==>
            forall c | c in s.newestFirst && c in s.docs && c !in page ::
              s.docs[c].parent != Some(top) || s.docs[c].isActive != active)
  {
    MatchingFacts(s, s.newestFirst, active, top);
    forall c | c in Page(s, active, top) ensures Matches(s, active, c, top) { assert c in Children(s, active, top); }
  }

  /** A member of a category that pages reach from `top`. */
  ghost predicate MemberBelow(s: Store, active: bool, top: string, u: string) {
    exists y :: y in s.docs && Reached(s, active, true, y, top) && u in UserIds(s.docs[y].members)
  }

  /** Returns exactly the members below, as far as pages show them; asks only for what the recursion needs to end. */
  method GetSubcategoryUsers(s: Store, top: string, excluded: seq<string>, active: bool) returns (users: set<string>)
    requires WellFormed(s) && NoLoop(s, active, top)
    ensures users == UsersBelow(s, active, true, top, excluded)
    ensures users <= UsersBelow(s, active, false, top, excluded)
    ensures SmallFamilies(s, active, top) ==> users == UsersBelow(s, active, false, top, excluded)
    decreases Walked(s, active, top)
  {
    var page := FindMany(s, active, top);
    users := {};
    var i := 0;
    while i < |page|
      invariant 0 <= i <= |page|
      invariant users == UsersFrom(s, active, page[..i], excluded)
    {
      var child := page[i];
      OnPage(s, active, top, i);
      var direct := MembersOf(s.docs[child], excluded);
      WalkShrinks(s, active, top, child);
      var below := GetSubcategoryUsers(s, child, excluded, active);
      users := users + direct + below;
      UsersFromNext(s, active, page, i, excluded);
      i := i + 1;
    }
    assert page[..i] == page;
    AllFound(s, active, top, excluded);
  }

  lemma AllFound(s: Store, active: bool, top: string, excluded: seq<string>)
    requires WellFormed(s)
    ensures var users := UsersFrom(s, active, Page(s, active, top), excluded);
      && users == UsersBelow(s, active, true, top, excluded)
      && users <= UsersBelow(s, active, false, top, excluded)
      && (SmallFamilies(s, active, top) ==> users == UsersBelow(s, active, false, top, excluded))
  {
    FromPage(s, active, top, excluded);
    PagingIsSound(s, active, top, excluded);
  }

  /** Who that is: the members of the categories reached, but for the excluded users. */
  lemma BelowExactly(s: Store, active: bool, top: string, excluded: seq<string>, u: string)
    ensures u in UsersBelow(s, active, true, top, excluded) <==> u !in excluded && MemberBelow(s, active, top, u)
    ensures u in UsersBelow(s, active, false, top, excluded) <==>
      u !in excluded && exists y :: y in s.docs && Reached(s, active, false, y, top) && u in UserIds(s.docs[y].members)
  {
  }

  lemma OnPage(s: Store, active: bool, top: string, i: nat)
    requires i < |Page(s, active, top)|
    ensures Link(s, active, true, Page(s, active, top)[i], top)
  {
    MatchingFacts(s, s.newestFirst, active, top);
    assert Page(s, active, top)[i] in Children(s, active, top);
  }

  /** The members of the listed categories and of what is reached from them. */
  ghost function UsersFrom(s: Store, active: bool, children: seq<string>, excluded: seq<string>): set<string> {
    if children == [] then {}
    else
      var c := children[|children| - 1];
      UsersFrom(s, active, children[..|children| - 1], excluded)
      + (if c in s.docs then set u | u in UserIds(s.docs[c].members) && u !in excluded else {})
      + UsersBelow(s, active, true, c, excluded)
  }

  lemma UsersFromNext(s: Store, active: bool, children: seq<string>, i: nat, excluded: seq<string>)
    requires i < |children| && children[i] in s.docs
    ensures UsersFrom(s, active, children[..i + 1], excluded)
         == UsersFrom(s, active, children[..i], excluded)
            + (set u | u in UserIds(s.docs[children[i]].members) && u !in excluded)
            + UsersBelow(s, active, true, children[i], excluded)
  {
    assert children[..i + 1][..i] == children[..i];
  }

  ghost predicate From(s: Store, active: bool, c: string, y: string) {
    y == c || Reached(s, active, true, y, c)
  }

  /** The user is a member of the category or of what is reached from it. */
  ghost predicate UserFrom(s: Store, active: bool, c: string, u: string) {
    exists y :: y in s.docs && From(s, active, c, y) && u in UserIds(s.docs[y].members)
  }

  lemma UserFromOne(s: Store, active: bool, c: string, excluded: seq<string>, u: string)
    ensures u !in excluded && UserFrom(s, active, c, u)
       <==> u in UsersBelow(s, active, true, c, excluded)
            || (c in s.docs && u in UserIds(s.docs[c].members) && u !in excluded)
  {
    if c in s.docs { assert From(s, active, c, c); }
    if u in UsersBelow(s, active, true, c, excluded) {
      var y :| y in s.docs && Reached(s, active, true, y, c) && u in UserIds(s.docs[y].members);
      assert From(s, active, c, y);
    }
  }

  lemma {:induction false} UsersFromExactly(
      s: Store, active: bool, children: seq<string>, excluded: seq<string>, u: string)
    ensures u in UsersFrom(s, active, children, excluded)
       <==> u !in excluded && exists i :: 0 <= i < |children| && UserFrom(s, active, children[i], u)
  {
    if children != [] {
      var before, c := children[..|children| - 1], children[|children| - 1];
      UsersFromExactly(s, active, before, excluded, u);
      UserFromOne(s, active, c, excluded, u);
      assert forall i :: 0 <= i < |before| ==> children[i] == before[i];
    }
  }

  lemma FromPage(s: Store, active: bool, top: string, excluded: seq<string>)
    requires WellFormed(s)
    ensures UsersFrom(s, active, Page(s, active, top), excluded) == UsersBelow(s, active, true, top, excluded)
  {
    var page := Page(s, active, top);
    MatchingFacts(s, s.newestFirst, active, top);
    forall c ensures c in page <==> Link(s, active, true, c, top) {
      if c in page { assert c in Children(s, active, top); }
    }
    forall u ensures u in UsersFrom(s, active, page, excluded) <==> u in UsersBelow(s, active, true, top, excluded) {
      UsersFromExactly(s, active, page, excluded, u);
      forall y ensures Reached(s, active, true, y, top)
                  <==> exists i :: 0 <= i < |page| && From(s, active, page[i], y)
      {
        ReachedThroughChild(s, active, true, y, top);
        if c :| Link(s, active, true, c, top) && (y == c || Reached(s, active, true, y, c)) {
          var i :| 0 <= i < |page| && page[i] == c;
          assert From(s, active, page[i], y);
        }
        if i :| 0 <= i < |page| && From(s, active, page[i], y) {
          assert page[i] in page && Link(s, active, true, page[i], top);
        }
      }
    }
  }

  datatype Options = Options(
    categoryIds: seq<string>, includeSubcategories: bool, excludeUsers: seq<string>, includeOnlyActive: bool)

  /** The listed category stands for the user: one of its members or, if asked for, of what is below. */
  ghost predicate Targeted(s: Store, o: Options, id: string, u: string) {
    && id in s.docs
    && (o.includeOnlyActive ==> s.docs[id].isActive)
    && (u in UserIds(s.docs[id].members) || (o.includeSubcategories && MemberBelow(s, o.includeOnlyActive, id, u)))
  }

  /** The call comes to the `i`-th listed category and looks below it. */
  ghost predicate Descends(s: Store, o: Options, i: nat)
    requires i < |o.categoryIds|
  {
    && o.includeSubcategories
    && (forall j :: 0 <= j <= i ==> o.categoryIds[j] in s.docs)
    && (o.includeOnlyActive ==> s.docs[o.categoryIds[i]].isActive)
  }

  ghost predicate TargetedByAny(s: Store, o: Options, ids: seq<string>, u: string) {
    exists i :: 0 <= i < |ids| && Targeted(s, o, ids[i], u)
  }

  lemma TargetedByOneMore(s: Store, o: Options, i: nat, u: string)
    requires i < |o.categoryIds|
    ensures TargetedByAny(s, o, o.categoryIds[..i + 1], u)
       <==> TargetedByAny(s, o, o.categoryIds[..i], u) || Targeted(s, o, o.categoryIds[i], u)
  {
    var before, after := o.categoryIds[..i], o.categoryIds[..i + 1];
    assert after[i] == o.categoryIds[i] && forall j :: 0 <= j < i ==> before[j] == after[j];
  }

  lemma OneMoreTarget(s: Store, o: Options, i: nat, all: set<string>, found: set<string>)
    requires i < |o.categoryIds| && o.categoryIds[i] in s.docs && TargetsOf(s, o, o.categoryIds[..i], all)
    requires var c := s.docs[o.categoryIds[i]];
      found == if o.includeOnlyActive && !c.isActive then {}
               else (set u | u in UserIds(c.members) && u !in o.excludeUsers)
                    + if o.includeSubcategories
                      then UsersBelow(s, o.includeOnlyActive, true, o.categoryIds[i], o.excludeUsers) else {}
    ensures TargetsOf(s, o, o.categoryIds[..i + 1], all + found)
  {
    forall u
      ensures u in all + found <==> u !in o.excludeUsers && TargetedByAny(s, o, o.categoryIds[..i + 1], u)
    {
      BelowExactly(s, o.includeOnlyActive, o.categoryIds[i], o.excludeUsers, u);
      TargetedByOneMore(s, o, i, u);
    }
  }

  /** An unknown id is not skipped: `getCategoryById` throws and the whole call fails. */
  method GetTargetUsers(s: Store, o: Options) returns (r: Targets)
    requires WellFormed(s)
    requires forall i :: 0 <= i < |o.categoryIds| && Descends(s, o, i) ==>
      NoLoop(s, o.includeOnlyActive, o.categoryIds[i])
    ensures r.Missing? <==> exists i :: 0 <= i < |o.categoryIds| && o.categoryIds[i] !in s.docs
    ensures r.Found? ==>
      forall u :: u in r.userIds <==> u !in o.excludeUsers && TargetedByAny(s, o, o.categoryIds, u)
  {
    var all: set<string> := {};
    var i := 0;
    while i < |o.categoryIds|
      invariant 0 <= i <= |o.categoryIds|
      invariant forall j :: 0 <= j < i ==> o.categoryIds[j] in s.docs
      invariant TargetsOf(s, o, o.categoryIds[..i], all)
    {
      var id := o.categoryIds[i];
      if id !in s.docs { return Missing; }
      var found := {};
      if !(o.includeOnlyActive && !s.docs[id].isActive) {
        found := MembersOf(s.docs[id], o.excludeUsers);
        if o.includeSubcategories {
          assert Descends(s, o, i);
          var below := GetSubcategoryUsers(s, id, o.excludeUsers, o.includeOnlyActive);
          found := found + below;
        }
      }
      OneMoreTarget(s, o, i, all, found);
      all := all + found;
      i := i + 1;
    }
    assert o.categoryIds[..i] == o.categoryIds;
    return Found(all);
  }

  /** Exactly the users whom one of the ids stands for, but for the excluded ones. */
  ghost predicate TargetsOf(s: Store, o: Options, ids: seq<string>, users: set<string>) {
    forall u :: u in users <==> u !in o.excludeUsers && TargetedByAny(s, o, ids, u)
  }

  ghost predicate MemberOfAny(s: Store, ids: seq<string>, u: string) {
    exists i :: 0 <= i < |ids| && ids[i] in s.docs && u in UserIds(s.docs[ids[i]].members)
  }

  lemma OneMoreCategory(s: Store, ids: seq<string>, i: nat, u: string)
    requires i < |ids| && ids[i] in s.docs
    ensures MemberOfAny(s, ids[..i + 1], u) <==> MemberOfAny(s, ids[..i], u) || u in UserIds(s.docs[ids[i]].members)
  {
    var before, after := ids[..i], ids[..i + 1];
    assert after[i] == ids[i] && forall j :: 0 <= j < i ==> before[j] == after[j];
  }

  method GetUsersByMultipleCategories(s: Store, ids: seq<string>, excluded: seq<string>) returns (r: Targets)
    ensures r.Missing? <==> exists i :: 0 <= i < |ids| && ids[i] !in s.docs
    ensures r.Found? ==>
      forall u :: u in r.userIds <==> u !in excluded && MemberOfAny(s, ids, u)
  {
    var all: set<string> := {};
    var i := 0;
    while i < |ids|
      invariant 0 <= i <= |ids|
      invariant forall j :: 0 <= j < i ==> ids[j] in s.docs
      invariant forall u :: u in all <==> u !in excluded && MemberOfAny(s, ids[..i], u)
    {
      if ids[i] !in s.docs { return Missing; }
      var users := MembersOf(s.docs[ids[i]], excluded);
      forall u { OneMoreCategory(s, ids, i, u); }
      all := all + users;
      i := i + 1;
    }
    assert ids[..i] == ids;
    return Found(all);
  }
}
