/** The construction of expression owners: every expression is scheduled once, every list
    element is claimed once, and so only forests are accepted. */
module ExpressionOwners {
  import opened Options
  import opened Reachability

  /** An element of an argument, statement or arm list, with the expressions it holds. */
  datatype Link = Link(values: seq<nat>, next: Option<nat>)

  datatype Expr = Expr(operands: seq<nat>, first: Option<nat>)

  datatype Syntax = Syntax(expressions: seq<Expr>, links: seq<Link>)

  /** List indices were checked before; expression indices were not, and the next links of
      lists may form cycles. */
  ghost predicate LinksInRange(s: Syntax) {
    && (forall u :: 0 <= u < |s.expressions| && s.expressions[u].first.Some? ==> s.expressions[u].first.value < |s.links|)
    && (forall l :: 0 <= l < |s.links| && s.links[l].next.Some? ==> s.links[l].next.value < |s.links|)
  }

  // ------------------------------------------------------------------ what a forest is

  /** Where an expression is used, and where a list element is referred to. */
  datatype Place = Operand(parent: nat, index: nat) | Item(link: nat, index: nat)

  datatype Ref = Head(parent: nat) | Next(link: nat)

  ghost predicate PlaceHolds(s: Syntax, p: Place, x: nat) {
    match p
    case Operand(u, i) => u < |s.expressions| && i < |s.expressions[u].operands| && s.expressions[u].operands[i] == x
    case Item(l, i) => l < |s.links| && i < |s.links[l].values| && s.links[l].values[i] == x
  }

  ghost predicate RefHolds(s: Syntax, r: Ref, l: nat) {
    match r
    case Head(u) => u < |s.expressions| && s.expressions[u].first == Some(l)
    case Next(k) => k < |s.links| && s.links[k].next == Some(l)
  }

  ghost function LinkGraph(s: Syntax): Graph {
    set l | 0 <= l < |s.links| && s.links[l].next.Some? :: (l, s.links[l].next.value)
  }

  /** Element l is in the list of expression u. */
  ghost predicate InList(s: Syntax, u: nat, l: nat) {
    u < |s.expressions| && s.expressions[u].first.Some? && Reaches(LinkGraph(s), s.expressions[u].first.value, l)
  }

  /** The place belongs to expression u. */
  ghost predicate UsedBy(s: Syntax, p: Place, u: nat) {
    match p
    case Operand(v, _) => u == v && u < |s.expressions|
    case Item(l, _) => InList(s, u, l)
  }

  /** The reference is the head of u's list, or a next link within it. */
  ghost predicate RefUsedBy(s: Syntax, r: Ref, u: nat) {
    match r
    case Head(v) => u == v && u < |s.expressions|
    case Next(k) => InList(s, u, k)
  }

  /** A use of expression x by expression u. */
  ghost predicate Uses(s: Syntax, p: Place, u: nat, x: nat) { UsedBy(s, p, u) && PlaceHolds(s, p, x) }

  ghost predicate UsesLink(s: Syntax, r: Ref, u: nat, l: nat) { RefUsedBy(s, r, u) && RefHolds(s, r, l) }

  /** Owners are constant along each tree, and parents come before their children. */
  ghost predicate OwnedTrees(s: Syntax, owners: seq<Option<nat>>, order: seq<nat>) {
    forall p, u: nat, x: nat :: Uses(s, p, u, x) ==> u < |owners| && x < |owners| && owners[x] == owners[u] && Earlier(order, u, x)
  }

  /** An expression has at most one parent and one place there. */
  ghost predicate OneParent(s: Syntax) {
    forall p, u, q, v, x :: Uses(s, p, u, x) && Uses(s, q, v, x) ==> p == q && u == v
  }

  /** A list element is in at most one list, and once. */
  ghost predicate OneList(s: Syntax) {
    forall r, u, t, v, l :: UsesLink(s, r, u, l) && UsesLink(s, t, v, l) ==> r == t && u == v
  }

  // ------------------------------------------------------------------------- the state

  datatype Build = Build(
    order: seq<nat>, owners: seq<Option<nat>>, places: map<nat, Place>,
    linkOwners: seq<Option<nat>>, refs: map<nat, Ref>, stack: seq<nat>)

  /** The expression that a place belongs to, as far as it has been claimed. */
  ghost function Holder(b: Build, p: Place): Option<nat> {
    match p
    case Operand(u, _) => Some(u)
    case Item(l, _) => if l < |b.linkOwners| then b.linkOwners[l] else None
  }

  ghost predicate Earlier(order: seq<nat>, u: nat, x: nat) {
    exists i, j :: 0 <= i < j < |order| && order[i] == u && order[j] == x
  }

  ghost predicate PlaceGood(s: Syntax, b: Build, x: nat)
    requires x in b.places
  {
    && PlaceHolds(s, b.places[x], x) && x < |b.owners|
    && Holder(b, b.places[x]).Some?
    && var u := Holder(b, b.places[x]).value; u < |b.owners| && Earlier(b.order, u, x) && b.owners[x] == b.owners[u]
  }

  ghost predicate RefGood(s: Syntax, b: Build, l: nat)
    requires l in b.refs
  {
    && RefHolds(s, b.refs[l], l) && l < |b.linkOwners| && b.linkOwners[l].Some?
    && match b.refs[l]
       case Head(u) => b.linkOwners[l] == Some(u)
       case Next(k) => k < |b.linkOwners| && b.linkOwners[k] == b.linkOwners[l]
  }

  ghost predicate OrderGood(s: Syntax, b: Build) {
    && |b.owners| == |s.expressions| && |b.linkOwners| == |s.links|
    && Distinct(b.order) && (forall x :: x in b.order ==> x < |s.expressions|)
  }

  ghost predicate PlacesGood(s: Syntax, b: Build) {
    forall x :: x in b.places ==> x in b.order && PlaceGood(s, b, x)
  }

  ghost predicate RefsGood(s: Syntax, b: Build) {
    forall l :: l in b.refs ==> RefGood(s, b, l)
  }

  ghost predicate LinkOwned(b: Build, l: nat) { l < |b.linkOwners| && b.linkOwners[l].Some? }

  ghost predicate OwnedGood(b: Build) {
    forall l: nat :: LinkOwned(b, l) ==> l in b.refs && b.linkOwners[l].value in b.order
  }

  ghost predicate Good(s: Syntax, b: Build)
    ensures Good(s, b) ==> |b.owners| == |s.expressions| && |b.linkOwners| == |s.links|
  {
    OrderGood(s, b) && PlacesGood(s, b) && RefsGood(s, b) && OwnedGood(b)
  }

  /** Places and references are recorded only for expressions taken from the stack and for
      elements claimed before. */
  ghost predicate PlaceFrom(b: Build, p: Place) {
    match p
    case Operand(u, _) => u in b.order && u !in b.stack
    case Item(l, _) => LinkOwned(b, l)
  }

  ghost predicate RefFrom(b: Build, r: Ref) {
    match r
    case Head(u) => u in b.order && u !in b.stack
    case Next(k) => LinkOwned(b, k)
  }

  ghost predicate Origins(s: Syntax, b: Build) {
    && Distinct(b.stack) && (forall x :: x in b.stack ==> x in b.order)
    && (forall x :: x in b.places ==> PlaceFrom(b, b.places[x]))
    && (forall l :: l in b.refs ==> RefFrom(b, b.refs[l]))
    && (forall l: nat :: LinkOwned(b, l) ==> InList(s, b.linkOwners[l].value, l))
  }

  /** No place or reference of this kind has been recorded, from an index on. */
  ghost predicate OperandsOpen(b: Build, u: nat, n: nat) {
    forall x :: x in b.places && b.places[x].Operand? && b.places[x].parent == u ==> b.places[x].index < n
  }

  ghost predicate ItemsOpen(b: Build, l: nat, n: nat) {
    forall x :: x in b.places && b.places[x].Item? && b.places[x].link == l ==> b.places[x].index < n
  }

  ghost predicate RefOpen(b: Build, r: Ref) {
    forall l :: l in b.refs ==> b.refs[l] != r
  }

  /** Everything scheduled since was given a place. */
  ghost predicate Hangs(x: Build, y: Build) {
    forall v :: v in y.order && v !in x.order ==> v in y.places
  }

  /** Everything an expression uses directly has been claimed for it. */
  ghost predicate Expanded(s: Syntax, b: Build, u: nat) {
    && u < |s.expressions|
    && OperandsPlaced(s, b, u, |s.expressions[u].operands|)
    && (s.expressions[u].first.Some? ==> HasRef(b, s.expressions[u].first.value, Head(u)))
  }

  ghost predicate HasPlace(b: Build, x: nat, p: Place) { x in b.places && b.places[x] == p }

  ghost predicate HasRef(b: Build, l: nat, r: Ref) { l in b.refs && b.refs[l] == r }

  ghost predicate OperandsPlaced(s: Syntax, b: Build, u: nat, n: nat) {
    && u < |s.expressions| && n <= |s.expressions[u].operands|
    && forall i :: 0 <= i < n ==> HasPlace(b, s.expressions[u].operands[i], Operand(u, i))
  }

  ghost predicate ValuesPlaced(s: Syntax, b: Build, l: nat, n: nat) {
    && l < |s.links| && n <= |s.links[l].values|
    && forall i :: 0 <= i < n ==> HasPlace(b, s.links[l].values[i], Item(l, i))
  }

  ghost predicate LinkDone(s: Syntax, b: Build, l: nat) {
    && l < |s.links| && ValuesPlaced(s, b, l, |s.links[l].values|)
    && (s.links[l].next.Some? ==> HasRef(b, s.links[l].next.value, Next(l)))
  }

  /** All claimed list elements are done, except possibly one. */
  ghost predicate LinksDone(s: Syntax, b: Build, current: Option<nat>) {
    forall l :: l in b.refs && current != Some(l) ==> LinkDone(s, b, l)
  }

  /** Claims are never taken back. */
  ghost predicate Grows(x: Build, y: Build) {
    && x.order <= y.order && |x.owners| == |y.owners| && |x.linkOwners| == |y.linkOwners|
    && (forall v :: v in x.order && v < |x.owners| ==> y.owners[v] == x.owners[v])
    && (forall v :: v in x.places ==> HasPlace(y, v, x.places[v]))
    && (forall v :: v in x.order && v in y.places ==> v in x.places)
    && (forall l :: l in x.refs ==> HasRef(y, l, x.refs[l]))
  }

  lemma {:induction false} GrowsSelf(x: Build)
    ensures Grows(x, x)
  {
  }

  lemma {:induction false} GrowsOn(x: Build, y: Build, z: Build)
    requires Grows(x, y) && Grows(y, z)
    ensures Grows(x, z)
  {
  }

  lemma {:induction false} ExpandedGrows(s: Syntax, x: Build, y: Build, u: nat)
    requires Grows(x, y) && Expanded(s, x, u)
    ensures Expanded(s, y, u)
  {
  }

  lemma {:induction false} OperandsGrow(s: Syntax, x: Build, y: Build, u: nat, n: nat)
    requires Grows(x, y) && OperandsPlaced(s, x, u, n)
    ensures OperandsPlaced(s, y, u, n)
  {
  }

  lemma {:induction false} ValuesGrow(s: Syntax, x: Build, y: Build, l: nat, n: nat)
    requires Grows(x, y) && ValuesPlaced(s, x, l, n)
    ensures ValuesPlaced(s, y, l, n)
  {
  }

  lemma {:induction false} LinkGrows(s: Syntax, x: Build, y: Build, l: nat)
    requires Grows(x, y) && LinkDone(s, x, l)
    ensures LinkDone(s, y, l)
  {
    ValuesGrow(s, x, y, l, |s.links[l].values|);
  }

  // ----------------------------------------------------------------------- the two steps

  /** Scheduling an expression at a place of an expression scheduled before. */
  ghost function Scheduled(b: Build, x: nat, owner: Option<nat>, place: Option<Place>): Build
    requires x < |b.owners|
  {
    b.(order := b.order + [x], owners := b.owners[x := owner],
       places := if place.Some? then b.places[x := place.value] else b.places, stack := b.stack + [x])
  }

  ghost predicate MayPlace(s: Syntax, b: Build, x: nat, owner: Option<nat>, p: Place) {
    && PlaceHolds(s, p, x) && Holder(b, p).Some?
    && Holder(b, p).value in b.order && Holder(b, p).value < |b.owners| && b.owners[Holder(b, p).value] == owner
  }

  lemma {:induction false} EarlierGrows(x: seq<nat>, y: seq<nat>, u: nat, v: nat)
    requires x <= y && Earlier(x, u, v)
    ensures Earlier(y, u, v)
  {
  }

  ghost predicate MaySchedule(s: Syntax, b: Build, x: nat, owner: Option<nat>, place: Option<Place>) {
    x < |s.expressions| && x !in b.order && (place.Some? ==> MayPlace(s, b, x, owner, place.value))
  }

  lemma {:induction false} ScheduleOrder(s: Syntax, b: Build, x: nat, owner: Option<nat>, place: Option<Place>)
    requires OrderGood(s, b) && MaySchedule(s, b, x, owner, place)
    ensures OrderGood(s, Scheduled(b, x, owner, place))
  {
  }

  lemma {:induction false} SchedulePlace(s: Syntax, b: Build, x: nat, owner: Option<nat>, place: Option<Place>, v: nat)
    requires OrderGood(s, b) && PlacesGood(s, b) && MaySchedule(s, b, x, owner, place)
    requires v in Scheduled(b, x, owner, place).places
    ensures v in Scheduled(b, x, owner, place).order && PlaceGood(s, Scheduled(b, x, owner, place), v)
  {
    hide Distinct, PlaceHolds;
    var c := Scheduled(b, x, owner, place);
    assert x !in b.places;
    if v != x {
      assert PlaceGood(s, b, v);
      var u := Holder(b, b.places[v]).value;
      EarlierGrows(b.order, c.order, u, v);
      assert u in b.order && v in b.order;
    } else {
      var u := Holder(b, place.value).value;
      var i :| 0 <= i < |b.order| && b.order[i] == u;
      assert c.order[i] == u && c.order[|b.order|] == x;
    }
  }

  lemma {:induction false} ScheduleRefs(s: Syntax, b: Build, x: nat, owner: Option<nat>, place: Option<Place>)
    requires OrderGood(s, b) && RefsGood(s, b) && OwnedGood(b) && MaySchedule(s, b, x, owner, place)
    ensures RefsGood(s, Scheduled(b, x, owner, place)) && OwnedGood(Scheduled(b, x, owner, place))
  {
    hide MayPlace, Distinct;
    var c := Scheduled(b, x, owner, place);
    forall l | l in c.refs ensures RefGood(s, c, l) { assert RefGood(s, b, l); }
    forall l: nat | LinkOwned(c, l) ensures l in c.refs && c.linkOwners[l].value in c.order { assert LinkOwned(b, l); }
  }

  lemma {:induction false} ScheduleGrows(s: Syntax, b: Build, x: nat, owner: Option<nat>, place: Option<Place>)
    requires OrderGood(s, b) && PlacesGood(s, b) && MaySchedule(s, b, x, owner, place)
    ensures Grows(b, Scheduled(b, x, owner, place))
  {
    hide MayPlace, Distinct, PlaceGood;
    assert x !in b.places;
  }

  lemma {:induction false} ScheduleKeeps(s: Syntax, b: Build, x: nat, owner: Option<nat>, place: Option<Place>)
    requires Good(s, b) && MaySchedule(s, b, x, owner, place)
    ensures Good(s, Scheduled(b, x, owner, place)) && Grows(b, Scheduled(b, x, owner, place))
  {
    hide OrderGood, RefsGood, OwnedGood, MayPlace, PlaceGood, Grows;
    ScheduleOrder(s, b, x, owner, place);
    ScheduleRefs(s, b, x, owner, place);
    ScheduleGrows(s, b, x, owner, place);
    var c := Scheduled(b, x, owner, place);
    forall v | v in c.places ensures v in c.order && PlaceGood(s, c, v) { SchedulePlace(s, b, x, owner, place, v); }
  }

  /** Claiming a list element. */
  ghost function Claimed(b: Build, l: nat, u: nat, r: Ref): Build
    requires l < |b.linkOwners|
  {
    b.(linkOwners := b.linkOwners[l := Some(u)], refs := b.refs[l := r])
  }

  ghost predicate MayClaim(s: Syntax, b: Build, l: nat, u: nat, r: Ref) {
    && l < |b.linkOwners| && b.linkOwners[l].None? && u in b.order && RefHolds(s, r, l)
    && match r
       case Head(v) => v == u
       case Next(k) => k < |b.linkOwners| && b.linkOwners[k] == Some(u)
  }

  lemma {:induction false} ClaimRefs(s: Syntax, b: Build, l: nat, u: nat, r: Ref)
    requires OrderGood(s, b) && RefsGood(s, b) && OwnedGood(b) && MayClaim(s, b, l, u, r)
    ensures l !in b.refs && RefsGood(s, Claimed(b, l, u, r)) && OwnedGood(Claimed(b, l, u, r))
  {
    hide Distinct;
    var c := Claimed(b, l, u, r);
    assert l in b.refs ==> RefGood(s, b, l);
    forall k | k in c.refs ensures RefGood(s, c, k) {
      if k != l { assert RefGood(s, b, k); }
    }
    forall k: nat | LinkOwned(c, k) ensures k in c.refs && c.linkOwners[k].value in c.order {
      if k != l { assert LinkOwned(b, k); }
    }
  }

  lemma {:induction false} ClaimPlace(s: Syntax, b: Build, l: nat, u: nat, r: Ref, v: nat)
    requires OrderGood(s, b) && PlacesGood(s, b) && MayClaim(s, b, l, u, r) && v in b.places
    ensures v in b.order && PlaceGood(s, Claimed(b, l, u, r), v)
  {
    hide Distinct, PlaceHolds, Earlier;
    assert PlaceGood(s, b, v);
    assert Holder(Claimed(b, l, u, r), b.places[v]) == Holder(b, b.places[v]);
  }

  lemma {:induction false} ClaimGrows(b: Build, l: nat, u: nat, r: Ref)
    requires l < |b.linkOwners| && l !in b.refs
    ensures Grows(b, Claimed(b, l, u, r))
  {
  }

  lemma {:induction false} ClaimKeeps(s: Syntax, b: Build, l: nat, u: nat, r: Ref)
    requires Good(s, b) && MayClaim(s, b, l, u, r)
    ensures l !in b.refs && Good(s, Claimed(b, l, u, r)) && Grows(b, Claimed(b, l, u, r))
  {
    hide RefsGood, OwnedGood, PlaceGood, Grows, Distinct;
    ClaimRefs(s, b, l, u, r);
    ClaimGrows(b, l, u, r);
    var c := Claimed(b, l, u, r);
    forall v | v in c.places ensures v in c.order && PlaceGood(s, c, v) { ClaimPlace(s, b, l, u, r, v); }
  }

  // ------------------------------------------------------------------------ the traversal

  /** Every scheduled expression waits on the stack, or everything it uses is claimed. */
  ghost predicate Covered(s: Syntax, b: Build, current: Option<nat>) {
    forall x :: x in b.order && current != Some(x) ==> x in b.stack || Expanded(s, b, x)
  }

  /** The stack holds scheduled expressions of one owner. */
  ghost predicate StackOwned(b: Build, owner: Option<nat>) {
    forall x :: x in b.stack ==> x in b.order && x < |b.owners| && b.owners[x] == owner
  }

  /** A part of the expansion of one expression: what is new waits on the stack. */
  ghost predicate Advances(x: Build, y: Build, owner: Option<nat>) {
    && Grows(x, y) && x.stack <= y.stack && StackOwned(y, owner) && |y.stack| - |x.stack| == |y.order| - |x.order|
    && (forall v :: v in y.order ==> v in x.order || v in y.stack)
    && (forall v :: v in y.stack ==> v in x.stack || v !in x.order)
  }

  lemma {:induction false} AdvancesOn(x: Build, y: Build, z: Build, owner: Option<nat>)
    requires Advances(x, y, owner) && Advances(y, z, owner)
    ensures Advances(x, z, owner)
  {
    GrowsOn(x, y, z);
    OrderKept(x, y);
    hide Grows;
    forall v | v in z.order ensures v in x.order || v in z.stack {
      if v in y.order && v !in x.order { assert v in y.stack; }
    }
    forall v | v in z.stack ensures v in x.stack || v !in x.order { }
  }

  lemma {:induction false} ScheduleAdvances(s: Syntax, b: Build, x: nat, owner: Option<nat>, place: Option<Place>)
    requires Good(s, b) && MaySchedule(s, b, x, owner, place) && StackOwned(b, owner)
    ensures Advances(b, Scheduled(b, x, owner, place), owner)
  {
    ScheduleGrows(s, b, x, owner, place);
    hide Grows, PlacesGood, RefsGood, OwnedGood, OrderGood, MayPlace;
  }

  lemma {:induction false} ClaimAdvances(s: Syntax, b: Build, l: nat, u: nat, r: Ref, owner: Option<nat>)
    requires Good(s, b) && MayClaim(s, b, l, u, r) && StackOwned(b, owner)
    ensures Advances(b, Claimed(b, l, u, r), owner)
  {
    ClaimKeeps(s, b, l, u, r);
    hide Grows, Good;
  }

  lemma {:induction false} CoveredLater(s: Syntax, x: Build, y: Build, owner: Option<nat>, current: Option<nat>)
    requires Covered(s, x, current) && Advances(x, y, owner)
    ensures Covered(s, y, current)
  {
    hide Expanded, StackOwned;
    forall v | v in y.order && current != Some(v) ensures v in y.stack || Expanded(s, y, v) {
      if v in x.order && v !in x.stack { ExpandedGrows(s, x, y, v); }
    }
  }

  lemma {:induction false} LinksDoneLater(s: Syntax, x: Build, y: Build, current: Option<nat>)
    requires LinksDone(s, x, current) && Grows(x, y) && y.refs == x.refs
    ensures LinksDone(s, y, current)
  {
    hide LinkDone;
    forall l | l in y.refs && current != Some(l) ensures LinkDone(s, y, l) { LinkGrows(s, x, y, l); }
  }

  /** Claiming the next element when the current one is otherwise done. */
  lemma {:induction false} ClaimDone(s: Syntax, b: Build, l: nat, u: nat, r: Ref, current: Option<nat>)
    requires Good(s, b) && MayClaim(s, b, l, u, r) && LinksDone(s, b, current)
    requires current.Some? ==>
      && current.value < |s.links| && ValuesPlaced(s, b, current.value, |s.links[current.value].values|)
      && s.links[current.value].next == Some(l) && r == Next(current.value)
    ensures LinksDone(s, Claimed(b, l, u, r), Some(l))
  {
    var c := Claimed(b, l, u, r);
    ClaimKeeps(s, b, l, u, r);
    hide Good, MayClaim;
    forall k | k in c.refs && k != l ensures LinkDone(s, c, k) {
      if current == Some(k) {
        ValuesGrow(s, b, c, k, |s.links[k].values|);
      } else {
        LinkGrows(s, b, c, k);
      }
    }
  }

  // ----------------------------------------------------------------- why it fails

  lemma {:induction false} ScheduleOrigins(s: Syntax, b: Build, x: nat, owner: Option<nat>, place: Option<Place>)
    requires Good(s, b) && Origins(s, b) && MaySchedule(s, b, x, owner, place) && (place.Some? ==> PlaceFrom(b, place.value))
    ensures Origins(s, Scheduled(b, x, owner, place))
  {
    hide PlacesGood, RefsGood, OwnedGood, MayPlace, InList;
    var c := Scheduled(b, x, owner, place);
    assert x !in b.stack;
    forall v | v in c.places ensures PlaceFrom(c, c.places[v]) { assert v != x ==> PlaceFrom(b, b.places[v]); }
    forall l | l in c.refs ensures RefFrom(c, c.refs[l]) { assert RefFrom(b, b.refs[l]); }
    forall l: nat | LinkOwned(c, l) ensures InList(s, c.linkOwners[l].value, l) { assert LinkOwned(b, l); }
  }

  lemma {:induction false} ClaimOrigins(s: Syntax, b: Build, l: nat, u: nat, r: Ref)
    requires Good(s, b) && Origins(s, b) && MayClaim(s, b, l, u, r) && RefFrom(b, r)
    ensures Origins(s, Claimed(b, l, u, r)) && InList(s, u, l)
  {
    ClaimInList(s, b, l, u, r);
    assert l < |b.linkOwners| && b.linkOwners[l].None?;
    hide Good, MayClaim, InList, Distinct;
    ClaimSources(s, b, l, u, r);
    hide PlaceFrom, RefFrom;
    var c := Claimed(b, l, u, r);
    forall k: nat | LinkOwned(c, k) ensures InList(s, c.linkOwners[k].value, k) {
      if k != l { assert LinkOwned(b, k); }
    }
  }

  lemma {:induction false} ClaimSources(s: Syntax, b: Build, l: nat, u: nat, r: Ref)
    requires Origins(s, b) && RefFrom(b, r) && l < |b.linkOwners| && b.linkOwners[l].None?
    ensures var c := Claimed(b, l, u, r); forall v :: v in c.places ==> PlaceFrom(c, c.places[v])
    ensures var c := Claimed(b, l, u, r); forall k :: k in c.refs ==> RefFrom(c, c.refs[k])
  {
    hide InList, Distinct;
    var c := Claimed(b, l, u, r);
    assert forall k: nat :: LinkOwned(b, k) ==> LinkOwned(c, k);
    hide LinkOwned;
    forall v | v in c.places ensures PlaceFrom(c, c.places[v]) { assert PlaceFrom(b, b.places[v]); }
    forall k | k in c.refs ensures RefFrom(c, c.refs[k]) {
      if k != l { assert RefFrom(b, b.refs[k]); }
    }
  }

  lemma {:induction false} ClaimInList(s: Syntax, b: Build, l: nat, u: nat, r: Ref)
    requires Good(s, b) && Origins(s, b) && MayClaim(s, b, l, u, r)
    ensures l < |b.linkOwners| && InList(s, u, l)
  {
    hide PlacesGood, RefsGood, OwnedGood, Distinct;
    match r
    case Head(_) => ReachesSelf(LinkGraph(s), l);
    case Next(k) =>
      assert LinkOwned(b, k);
      assert (k, l) in LinkGraph(s);
      ReachesEdge(LinkGraph(s), k, l);
      ReachesThrough(LinkGraph(s), s.expressions[u].first.value, k, l);
  }

  /** A recorded place is a use. */
  lemma {:induction false} PlaceIsUse(s: Syntax, b: Build, x: nat) returns (u: nat)
    requires Good(s, b) && Origins(s, b) && x in b.places
    ensures Uses(s, b.places[x], u, x) && Earlier(b.order, u, x)
    ensures u < |b.owners| && x < |b.owners| && b.owners[x] == b.owners[u]
  {
    hide RefsGood, OwnedGood, Distinct, InList;
    assert PlaceGood(s, b, x) && PlaceFrom(b, b.places[x]);
    u := Holder(b, b.places[x]).value;
  }

  lemma {:induction false} RefIsUse(s: Syntax, b: Build, l: nat) returns (u: nat)
    requires Good(s, b) && Origins(s, b) && l in b.refs
    ensures UsesLink(s, b.refs[l], u, l)
  {
    hide PlacesGood, Distinct, InList;
    assert RefGood(s, b, l) && RefFrom(b, b.refs[l]);
    match b.refs[l]
    case Head(v) => u := v;
    case Next(k) => u := b.linkOwners[k].value;
  }

  /** Some use has no expression, some expression two uses, or some element two lists. */
  ghost predicate Conflict(s: Syntax) {
    || (exists p, u: nat, x: nat :: Uses(s, p, u, x) && x >= |s.expressions|)
    || !OneParent(s) || !OneList(s)
  }

  /** An expression scheduled on its own account is used after all. */
  ghost predicate TopUsed(s: Syntax, b: Build) {
    exists p, u: nat, x: nat :: Uses(s, p, u, x) && x in b.order && x !in b.places
  }

  lemma {:induction false} PlaceConflict(s: Syntax, b: Build, p: Place, u: nat, x: nat)
    requires Good(s, b) && Origins(s, b) && Uses(s, p, u, x) && (x >= |s.expressions| || x in b.order)
    requires x in b.places ==> b.places[x] != p
    ensures Conflict(s) || TopUsed(s, b)
  {
    hide Good, Origins, Uses;
    if x in b.places {
      var v := PlaceIsUse(s, b, x);
      assert Uses(s, p, u, x) && Uses(s, b.places[x], v, x);
    }
  }

  lemma {:induction false} RefConflict(s: Syntax, b: Build, r: Ref, u: nat, l: nat)
    requires Good(s, b) && Origins(s, b) && UsesLink(s, r, u, l) && LinkOwned(b, l) && RefOpen(b, r)
    ensures Conflict(s)
  {
    assert l in b.refs;
    hide Good, Origins, UsesLink;
    var v := RefIsUse(s, b, l);
    assert UsesLink(s, r, u, l) && UsesLink(s, b.refs[l], v, l);
    assert b.refs[l] != r;
  }

  class Builder {
    const syntax: Syntax
    var scheduled: seq<bool>
    var owners: seq<Option<nat>>
    var linkOwners: seq<Option<nat>>
    var stack: seq<nat>
    ghost var b: Build

    ghost predicate Valid()
      reads this
    {
      && LinksInRange(syntax) && Good(syntax, b) && Origins(syntax, b)
      && b.owners == owners && b.linkOwners == linkOwners && b.stack == stack
      && |scheduled| == |syntax.expressions| && forall x: nat :: x < |scheduled| ==> (scheduled[x] <==> x in b.order)
    }

    constructor (syntax: Syntax)
      requires LinksInRange(syntax)
      ensures Valid() && this.syntax == syntax && stack == [] && b.order == [] && b.refs == map[] && b.places == map[]
    {
      this.syntax := syntax;
      scheduled := seq(|syntax.expressions|, _ => false);
      owners := seq(|syntax.expressions|, _ => None);
      linkOwners := seq(|syntax.links|, _ => None);
      stack := [];
      b := Build([], seq(|syntax.expressions|, _ => None), map[], seq(|syntax.links|, _ => None), map[], []);
    }

    /** Schedules an expression, unless its index is wrong or it was scheduled before. */
    method Schedule(x: nat, owner: Option<nat>, ghost place: Option<Place>) returns (ok: bool)
      requires Valid() && StackOwned(b, owner)
      requires place.Some? ==> MayPlace(syntax, b, x, owner, place.value) && PlaceFrom(b, place.value)
      modifies this
      ensures Valid() && StackOwned(b, owner)
      ensures ok ==> x < |old(b).owners| && x !in old(b).order && b == Scheduled(old(b), x, owner, place) && Advances(old(b), b, owner)
      ensures !ok ==> b == old(b) && (x >= |syntax.expressions| || x in b.order)
    {
      hide MayPlace, PlacesGood, RefsGood, OwnedGood, OrderGood, Grows, Origins, PlaceFrom;
      if x >= |syntax.expressions| || scheduled[x] { return false; }
      ScheduleKeeps(syntax, b, x, owner, place);
      ScheduleAdvances(syntax, b, x, owner, place);
      ScheduleOrigins(syntax, b, x, owner, place);
      scheduled, owners, stack := scheduled[x := true], owners[x := owner], stack + [x];
      b := Scheduled(b, x, owner, place);
      ok := true;
    }

    method ScheduleOperands(u: nat, owner: Option<nat>) returns (ok: bool)
      requires Valid() && StackOwned(b, owner) && Ready(b, u, owner) && LinksDone(syntax, b, None) && OperandsOpen(b, u, 0)
      modifies this
      ensures Valid() && Advances(old(b), b, owner) && Hangs(old(b), b) && b.refs == old(b).refs
      ensures ok ==> OperandsPlaced(syntax, b, u, |syntax.expressions[u].operands|) && LinksDone(syntax, b, None)
      ensures !ok ==> Conflict(syntax) || TopUsed(syntax, b)
    {
      hide Good, Origins, LinksDone, Expanded, Advances, Hangs, OperandsOpen, OperandsPlaced, Conflict, TopUsed, StackOwned;
      ghost var before := b;
      NoAdvance(b, owner);
      NoOperands(syntax, b, u);
      var operands := syntax.expressions[u].operands;
      var i := 0;
      while i < |operands|
        invariant 0 <= i <= |operands| && Valid() && StackOwned(b, owner)
        invariant Advances(before, b, owner) && Hangs(before, b) && b.refs == before.refs
        invariant OperandsPlaced(syntax, b, u, i) && LinksDone(syntax, b, None) && OperandsOpen(b, u, i)
      {
        ghost var x := b;
        StillReady(before, b, owner, u);
        ok := Schedule(operands[i], owner, Some(Operand(u, i)));
        if !ok {
          OperandClash(syntax, b, u, i);
          return;
        }
        AdvancesOn(before, x, b, owner);
        OperandNext(syntax, x, b, u, i, owner);
        HangsOn(before, x, b, owner);
        LinksDoneAfter(syntax, x, b, owner, None);
        i := i + 1;
      }
      ok := true;
    }

    method ScheduleValues(l: nat, u: nat, owner: Option<nat>) returns (ok: bool)
      requires Valid() && StackOwned(b, owner) && Ready(b, u, owner)
      requires l < |linkOwners| && linkOwners[l] == Some(u) && LinksDone(syntax, b, Some(l)) && ItemsOpen(b, l, 0)
      modifies this
      ensures Valid() && Advances(old(b), b, owner) && Hangs(old(b), b) && b.refs == old(b).refs && linkOwners == old(linkOwners)
      ensures ok ==> ValuesPlaced(syntax, b, l, |syntax.links[l].values|) && LinksDone(syntax, b, Some(l))
      ensures !ok ==> Conflict(syntax) || TopUsed(syntax, b)
    {
      hide Good, Origins, LinksDone, Expanded, Advances, Hangs, ItemsOpen, ValuesPlaced, Conflict, TopUsed, StackOwned;
      ghost var before := b;
      NoAdvance(b, owner);
      NoValues(syntax, b, l);
      var values := syntax.links[l].values;
      var i := 0;
      while i < |values|
        invariant 0 <= i <= |values| && Valid() && StackOwned(b, owner)
        invariant Advances(before, b, owner) && Hangs(before, b) && b.refs == before.refs && linkOwners == before.linkOwners
        invariant ValuesPlaced(syntax, b, l, i) && LinksDone(syntax, b, Some(l)) && ItemsOpen(b, l, i)
      {
        ghost var x := b;
        StillReady(before, b, owner, u);
        ok := Schedule(values[i], owner, Some(Item(l, i)));
        if !ok {
          ItemClash(syntax, b, l, u, i);
          return;
        }
        AdvancesOn(before, x, b, owner);
        ValueNext(syntax, x, b, l, i, owner);
        HangsOn(before, x, b, owner);
        LinksDoneAfter(syntax, x, b, owner, Some(l));
        i := i + 1;
      }
      ok := true;
    }

    method Claim(l: nat, u: nat, ghost r: Ref, ghost current: Option<nat>, owner: Option<nat>)
      requires Valid() && MayClaim(syntax, b, l, u, r) && RefFrom(b, r) && LinksDone(syntax, b, current) && StackOwned(b, owner)
      requires current.Some? ==>
        && current.value < |syntax.links| && ValuesPlaced(syntax, b, current.value, |syntax.links[current.value].values|)
        && syntax.links[current.value].next == Some(l) && r == Next(current.value)
      modifies this
      ensures Valid() && b == Claimed(old(b), l, u, r) && l !in old(b).refs
      ensures LinksDone(syntax, b, Some(l)) && Advances(old(b), b, owner) && StackOwned(b, owner)
      ensures ItemsOpen(b, l, 0) && RefOpen(b, Next(l))
    {
      ClaimKeeps(syntax, b, l, u, r);
      ClaimDone(syntax, b, l, u, r, current);
      ClaimAdvances(syntax, b, l, u, r, owner);
      ClaimOrigins(syntax, b, l, u, r);
      ClaimOpens(syntax, b, l, u, r);
      hide Good, Origins, LinksDone, MayClaim, Grows, ItemsOpen, RefOpen, RefFrom;
      linkOwners := linkOwners[l := Some(u)];
      b := Claimed(b, l, u, r);
    }

    /** Follows the list of an expression. A cycle of next links ends the loop, because its
        first element would be claimed twice. */
    method ScheduleList(u: nat, owner: Option<nat>) returns (ok: bool)
      requires Valid() && StackOwned(b, owner) && Ready(b, u, owner) && LinksDone(syntax, b, None) && RefOpen(b, Head(u))
      modifies this
      ensures Valid() && Advances(old(b), b, owner) && Hangs(old(b), b)
      ensures ok ==> LinksDone(syntax, b, None)
      ensures ok && syntax.expressions[u].first.Some? ==> HasRef(b, syntax.expressions[u].first.value, Head(u))
      ensures !ok ==> Conflict(syntax) || TopUsed(syntax, b)
    {
      hide Good, Origins, LinksDone, Advances, Hangs, StackOwned, MayClaim, RefOpen, RefFrom, ItemsOpen, Conflict, TopUsed, LinkOwned;
      ghost var before := b;
      NoAdvance(b, owner);
      var link := syntax.expressions[u].first;
      ghost var current: Option<nat> := None;
      HangsSelf(b);
      RefsFit(syntax, b);
      while link.Some?
        invariant Valid() && StackOwned(b, owner) && Advances(before, b, owner) && Hangs(before, b) && |b.refs| <= |syntax.links|
        invariant Following(syntax, b, u, current, link) && LinksDone(syntax, b, current) && RefOpen(b, RefOf(u, current))
        decreases |syntax.links| - |b.refs|
      {
        ghost var x, r := b, RefOf(u, current);
        var l := link.value;
        StillReady(before, b, owner, u);
        FollowingRef(syntax, b, u, current, link, owner);
        if linkOwners[l].Some? {
          assert LinkOwned(b, l) by { IsOwned(b, l); }
          RefConflict(syntax, b, r, u, l);
          return false;
        }
        NextClaim(syntax, b, u, current, link, r);
        Claim(l, u, r, current, owner);
        ghost var y := b;
        AdvancesOn(before, x, y, owner);
        HangsOn(before, x, y, owner);
        StillReady(before, b, owner, u);
        ok := ScheduleValues(l, u, owner);
        AdvancesOn(before, y, b, owner);
        HangsOn(before, y, b, owner);
        if !ok { return; }
        FollowedOn(syntax, x, y, b, u, current, l, r, owner);
        SameRefs(y, b, Next(l));
        RefsFit(syntax, b);
        MoreRefs(x, l, r);
        AdvancedOwned(y, b, owner);
        link := syntax.links[l].next;
        current := Some(l);
      }
      ListDone(syntax, b, u, current);
      ok := true;
    }

    /** Takes expressions from the stack until it is empty. */
    method Drain(owner: Option<nat>) returns (ok: bool)
      requires Valid() && StackOwned(b, owner) && Covered(syntax, b, None) && LinksDone(syntax, b, None)
      modifies this
      ensures Valid() && Grows(old(b), b) && Hangs(old(b), b)
      ensures ok ==> stack == [] && Covered(syntax, b, None) && LinksDone(syntax, b, None)
      ensures !ok ==> Conflict(syntax) || TopUsed(syntax, b)
    {
      hide Good, Origins, LinksDone, Covered, StackOwned, Grows, Hangs, Conflict, TopUsed;
      GrowsSelf(b);
      HangsSelf(b);
      OrderFits(syntax, b);
      while stack != []
        invariant Valid() && StackOwned(b, owner) && Covered(syntax, b, None) && LinksDone(syntax, b, None)
        invariant Grows(old(b), b) && Hangs(old(b), b) && |b.order| <= |syntax.expressions|
        decreases |syntax.expressions| - |b.order|, |stack|
      {
        ghost var x := b;
        ok := Expand(owner);
        GrowsOn(old(b), x, b);
        HangsLater(old(b), x, b);
        if !ok { return; }
        OrderFits(syntax, b);
      }
      ok := true;
    }

    method Expand(owner: Option<nat>) returns (ok: bool)
      requires Valid() && StackOwned(b, owner) && Covered(syntax, b, None) && LinksDone(syntax, b, None) && stack != []
      modifies this
      ensures Valid() && Grows(old(b), b) && Hangs(old(b), b)
      ensures ok ==> StackOwned(b, owner) && Covered(syntax, b, None) && LinksDone(syntax, b, None)
      ensures ok ==> |b.order| > |old(b).order| || (b.order == old(b).order && |stack| < |old(stack)|)
      ensures !ok ==> Conflict(syntax) || TopUsed(syntax, b)
    {
      hide Good, Origins, LinksDone, Covered, StackOwned, Advances, Grows, Hangs, OperandsOpen, RefOpen, Conflict, TopUsed, HasRef, OperandsPlaced;
      ghost var start := b;
      var n := |stack| - 1;
      var u := stack[n];
      Popped(syntax, b, owner);
      PoppedOrigins(syntax, b, owner);
      stack := stack[..n];
      b := b.(stack := b.stack[..n]);
      ghost var x := b;
      ok := ScheduleOperands(u, owner);
      ghost var y := b;
      Progress(start, x, b, owner);
      HangsAnyStack(start, x, b);
      if !ok { return; }
      StillReady(x, y, owner, u);
      AdvancedOwned(x, y, owner);
      SameRefs(x, y, Head(u));
      ok := ScheduleList(u, owner);
      AdvancesOn(x, y, b, owner);
      HangsOn(x, y, b, owner);
      Progress(start, x, b, owner);
      HangsAnyStack(start, x, b);
      if !ok { return; }
      FullyExpanded(syntax, x, y, b, owner, u);
      AdvancedOwned(x, b, owner);
    }

    /** All roots in turn, then every expression that no root reaches. */
    method BuildAll(roots: seq<(nat, nat)>) returns (ok: bool)
      requires Valid() && stack == [] && b.order == [] && b.refs == map[] && b.places == map[]
      modifies this
      ensures Valid()
      ensures ok ==> Finished(syntax, b)
      ensures ok ==> RootsIn(b, roots, |roots|) && TurnsTaken(syntax, b, roots, |syntax.expressions|)
      ensures !ok ==> Defective(syntax, roots)
    {
      ok := BuildRoots(roots);
      if ok { ok := BuildOrphans(roots); }
    }

    method BuildRoots(roots: seq<(nat, nat)>) returns (ok: bool)
      requires Valid() && stack == [] && b.order == [] && b.refs == map[] && b.places == map[]
      modifies this
      ensures Valid()
      ensures ok ==> stack == [] && Covered(syntax, b, None) && LinksDone(syntax, b, None) && RootsIn(b, roots, |roots|) && TopsKnown(syntax, b, roots) && TopsDeclared(b, roots, |roots|)
      ensures !ok ==> Defective(syntax, roots)
    {
      hide Good, Origins, LinksDone, Covered, StackOwned, Grows, RootsIn, TopsDeclared, TopsKnown, Defective, TopsWithin, Conflict, TopUsed;
      NothingBuilt(syntax, b, roots);
      var i := 0;
      while i < |roots|
        invariant 0 <= i <= |roots| && Valid() && stack == [] && Covered(syntax, b, None) && LinksDone(syntax, b, None)
        invariant RootsIn(b, roots, i) && TopsDeclared(b, roots, i)
      {
        ghost var x := b;
        ok := BuildTree(roots[i].1, Some(roots[i].0));
        if !ok {
          RootFails(syntax, x, b, roots, i);
          return;
        }
        RootAdded(syntax, x, b, roots, i);
        i := i + 1;
      }
      DeclaredKnown(syntax, b, roots);
      ok := true;
    }

    method BuildOrphans(roots: seq<(nat, nat)>) returns (ok: bool)
      requires Valid() && stack == [] && Covered(syntax, b, None) && LinksDone(syntax, b, None) && RootsIn(b, roots, |roots|) && TopsKnown(syntax, b, roots) && TopsDeclared(b, roots, |roots|)
      modifies this
      ensures Valid()
      ensures ok ==> Finished(syntax, b) && RootsIn(b, roots, |roots|) && TurnsTaken(syntax, b, roots, |syntax.expressions|)
      ensures !ok ==> Defective(syntax, roots)
    {
      hide Good, Origins, LinksDone, Covered, StackOwned, Grows, RootsIn, TopsKnown, Defective, TopsWithin, Conflict, TopUsed, StartsTree, TurnsTaken;
      NoTurns(syntax, b, roots);
      var i := 0;
      while i < |syntax.expressions|
        invariant 0 <= i <= |syntax.expressions| && Valid() && stack == [] && Covered(syntax, b, None) && LinksDone(syntax, b, None)
        invariant RootsIn(b, roots, |roots|) && TopsKnown(syntax, b, roots) && TurnsTaken(syntax, b, roots, i)
      {
        if !scheduled[i] {
          ghost var x := b;
          OrphanFound(syntax, b, roots, i);
          ok := BuildTree(i, None);
          if !ok {
            OrphanFails(syntax, x, b, roots, i);
            return;
          }
          OrphanAdded(syntax, x, b, roots, i);
          OrphanTurn(syntax, x, b, roots, i);
        } else {
          TurnPasses(syntax, b, roots, i);
        }
        i := i + 1;
      }
      AllTurns(syntax, b, roots, i);
      AllFinished(syntax, b);
      ok := true;
    }

    method BuildTree(x: nat, owner: Option<nat>) returns (ok: bool)
      requires Valid() && stack == [] && Covered(syntax, b, None) && LinksDone(syntax, b, None)
      modifies this
      ensures Valid() && Grows(old(b), b) && TopsWithin(old(b), b, x)
      ensures ok ==> stack == [] && Covered(syntax, b, None) && LinksDone(syntax, b, None)
      ensures ok ==> x !in old(b).order && x < |b.owners| && x in b.order && x !in b.places && b.owners[x] == owner
      ensures !ok ==> x >= |syntax.expressions| || x in old(b).order || Conflict(syntax) || TopUsed(syntax, b)
    {
      hide Good, Origins, LinksDone, Covered, Grows, Hangs, Advances, TopsWithin, Conflict, TopUsed;
      ghost var start := b;
      NoStack(b, owner);
      ok := Schedule(x, owner, None);
      if !ok {
        GrowsSelf(start);
        SameTops(start, x);
        return;
      }
      ghost var y := b;
      Rooted(syntax, start, y, x, owner);
      ok := Drain(owner);
      GrowsOn(start, y, b);
      NewTop(syntax, start, y, b, x, owner);
      if !ok { return; }
      RootStays(syntax, y, b, x, owner);
    }
  }

  // --------------------------------------------------------------- steps of the loops

  /** The expression being expanded: scheduled with the owner, and off the stack. */
  ghost predicate Ready(b: Build, u: nat, owner: Option<nat>) {
    u in b.order && u < |b.owners| && b.owners[u] == owner && u !in b.stack
  }

  lemma {:induction false} StillReady(x: Build, y: Build, owner: Option<nat>, u: nat)
    requires Advances(x, y, owner) && Ready(x, u, owner)
    ensures Ready(y, u, owner) && StackOwned(y, owner)
  {
  }

  lemma {:induction false} AdvancedOwned(x: Build, y: Build, owner: Option<nat>)
    requires Advances(x, y, owner)
    ensures StackOwned(y, owner)
  {
  }

  lemma {:induction false} HangsSelf(x: Build)
    ensures Hangs(x, x)
  {
  }

  lemma {:induction false} HangsOn(x: Build, y: Build, z: Build, owner: Option<nat>)
    requires Advances(y, z, owner) && Hangs(x, y) && (Hangs(y, z) || z.order == y.order)
    ensures Hangs(x, z)
  {
    hide StackOwned;
    forall v | v in z.order && v !in x.order ensures v in z.places {
      if v in y.order { assert HasPlace(z, v, y.places[v]); }
    }
  }

  lemma {:induction false} HangsLater(x: Build, y: Build, z: Build)
    requires Grows(y, z) && Hangs(x, y) && Hangs(y, z)
    ensures Hangs(x, z)
  {
    forall v | v in z.order && v !in x.order ensures v in z.places {
      if v in y.order { assert HasPlace(z, v, y.places[v]); }
    }
  }

  lemma {:induction false} HangsAnyStack(start: Build, x: Build, z: Build)
    requires x.order == start.order && Hangs(x, z)
    ensures Hangs(start, z)
  {
  }

  lemma {:induction false} LinksDoneAfter(s: Syntax, x: Build, y: Build, owner: Option<nat>, current: Option<nat>)
    requires LinksDone(s, x, current) && Advances(x, y, owner) && y.refs == x.refs
    ensures LinksDone(s, y, current)
  {
    LinksDoneLater(s, x, y, current);
  }

  lemma {:induction false} NoOperands(s: Syntax, b: Build, u: nat)
    requires u < |s.expressions|
    ensures OperandsPlaced(s, b, u, 0) && Hangs(b, b)
  {
  }

  lemma {:induction false} NoValues(s: Syntax, b: Build, l: nat)
    requires l < |s.links|
    ensures ValuesPlaced(s, b, l, 0) && Hangs(b, b)
  {
  }

  lemma {:induction false} OperandNext(s: Syntax, x: Build, y: Build, u: nat, i: nat, owner: Option<nat>)
    requires u < |s.expressions| && i < |s.expressions[u].operands| && OperandsPlaced(s, x, u, i) && OperandsOpen(x, u, i)
    requires var v := s.expressions[u].operands[i]; v < |x.owners| && y == Scheduled(x, v, owner, Some(Operand(u, i)))
    requires Advances(x, y, owner)
    ensures OperandsPlaced(s, y, u, i + 1) && OperandsOpen(y, u, i + 1) && Hangs(x, y)
  {
    OperandsGrow(s, x, y, u, i);
  }

  lemma {:induction false} ValueNext(s: Syntax, x: Build, y: Build, l: nat, i: nat, owner: Option<nat>)
    requires l < |s.links| && i < |s.links[l].values| && ValuesPlaced(s, x, l, i) && ItemsOpen(x, l, i)
    requires var v := s.links[l].values[i]; v < |x.owners| && y == Scheduled(x, v, owner, Some(Item(l, i)))
    requires Advances(x, y, owner)
    ensures ValuesPlaced(s, y, l, i + 1) && ItemsOpen(y, l, i + 1) && Hangs(x, y)
  {
    ValuesGrow(s, x, y, l, i);
  }

  lemma {:induction false} OperandClash(s: Syntax, b: Build, u: nat, i: nat)
    requires Good(s, b) && Origins(s, b) && u < |s.expressions| && i < |s.expressions[u].operands| && OperandsOpen(b, u, i)
    requires var x := s.expressions[u].operands[i]; x >= |s.expressions| || x in b.order
    ensures Conflict(s) || TopUsed(s, b)
  {
    PlaceConflict(s, b, Operand(u, i), u, s.expressions[u].operands[i]);
  }

  lemma {:induction false} ItemClash(s: Syntax, b: Build, l: nat, u: nat, i: nat)
    requires Good(s, b) && Origins(s, b) && l < |s.links| && i < |s.links[l].values| && ItemsOpen(b, l, i)
    requires l < |b.linkOwners| && b.linkOwners[l] == Some(u)
    requires var x := s.links[l].values[i]; x >= |s.expressions| || x in b.order
    ensures Conflict(s) || TopUsed(s, b)
  {
    assert LinkOwned(b, l);
    PlaceConflict(s, b, Item(l, i), u, s.links[l].values[i]);
  }

  lemma {:induction false} ClaimOpens(s: Syntax, b: Build, l: nat, u: nat, r: Ref)
    requires Good(s, b) && Origins(s, b) && MayClaim(s, b, l, u, r) && RefFrom(b, r)
    ensures ItemsOpen(Claimed(b, l, u, r), l, 0) && RefOpen(Claimed(b, l, u, r), Next(l))
  {
    hide PlacesGood, RefsGood, OwnedGood, Distinct, InList;
    var c := Claimed(b, l, u, r);
    forall x | x in c.places ensures !(c.places[x].Item? && c.places[x].link == l) { assert PlaceFrom(b, b.places[x]); }
    forall k | k in c.refs ensures c.refs[k] != Next(l) {
      if k != l { assert RefFrom(b, b.refs[k]); }
    }
  }

  ghost function RefOf(u: nat, current: Option<nat>): Ref {
    if current.Some? then Next(current.value) else Head(u)
  }

  lemma {:induction false} FollowingRef(s: Syntax, b: Build, u: nat, current: Option<nat>, link: Option<nat>, owner: Option<nat>)
    requires Good(s, b) && Origins(s, b) && Following(s, b, u, current, link) && Ready(b, u, owner) && link.Some?
    ensures RefFrom(b, RefOf(u, current)) && UsesLink(s, RefOf(u, current), u, link.value)
  {
    hide Good, ValuesPlaced, InList;
    if current.Some? { assert LinkOwned(b, current.value); }
  }

  lemma {:induction false} IsOwned(b: Build, l: nat)
    requires l < |b.linkOwners| && b.linkOwners[l].Some?
    ensures LinkOwned(b, l)
  {
  }

  lemma {:induction false} SameRefs(x: Build, y: Build, r: Ref)
    requires RefOpen(x, r) && y.refs == x.refs
    ensures RefOpen(y, r)
  {
  }

  lemma {:induction false} PoppedOrigins(s: Syntax, b: Build, owner: Option<nat>)
    requires Good(s, b) && Origins(s, b) && StackOwned(b, owner) && b.stack != []
    ensures var n := |b.stack| - 1; var u, c := b.stack[n], b.(stack := b.stack[..n]);
            Origins(s, c) && Ready(c, u, owner) && OperandsOpen(c, u, 0) && RefOpen(c, Head(u))
  {
    hide Good, InList;
    var n := |b.stack| - 1;
    var u, c := b.stack[n], b.(stack := b.stack[..n]);
    assert b.stack == c.stack + [u];
    assert u in b.stack && u !in c.stack;
    forall x | x in c.places ensures PlaceFrom(c, c.places[x]) && (c.places[x].Operand? ==> c.places[x].parent != u) {
      assert PlaceFrom(b, b.places[x]);
    }
    forall l | l in c.refs ensures RefFrom(c, c.refs[l]) && c.refs[l] != Head(u) { assert RefFrom(b, b.refs[l]); }
    forall l: nat | LinkOwned(c, l) ensures InList(s, c.linkOwners[l].value, l) { assert LinkOwned(b, l); }
  }

  lemma {:induction false} NoStack(b: Build, owner: Option<nat>)
    requires b.stack == []
    ensures StackOwned(b, owner)
  {
  }

  // ------------------------------------------------------------------------ the roots

  /** The expressions scheduled on their own account are those from before, and one more. */
  ghost predicate TopsWithin(x: Build, y: Build, extra: nat) {
    forall v :: v in y.order && v !in y.places ==> v == extra || (v in x.order && v !in x.places)
  }

  lemma {:induction false} SameTops(x: Build, extra: nat)
    ensures TopsWithin(x, x, extra)
  {
  }

  lemma {:induction false} NewTop(s: Syntax, start: Build, y: Build, z: Build, x: nat, owner: Option<nat>)
    requires x < |start.owners| && y == Scheduled(start, x, owner, None) && Grows(y, z) && Hangs(y, z)
    ensures TopsWithin(start, z, x)
  {
    forall v | v in z.order && v !in z.places ensures v == x || (v in start.order && v !in start.places) {
      assert v in y.order;
      assert v in y.places ==> HasPlace(z, v, y.places[v]);
    }
  }

  ghost predicate RootsIn(b: Build, roots: seq<(nat, nat)>, n: nat) {
    && n <= |roots| && (forall i :: 0 <= i < n ==> RootScheduled(b, roots[i].0, roots[i].1))
    && forall i, j :: 0 <= i < j < n ==> roots[i].1 != roots[j].1
  }

  ghost predicate DeclaredRoot(roots: seq<(nat, nat)>, n: nat, v: nat) {
    exists i :: 0 <= i < n && i < |roots| && roots[i].1 == v
  }

  ghost predicate TopsDeclared(b: Build, roots: seq<(nat, nat)>, n: nat) {
    forall v :: v in b.order && v !in b.places ==> DeclaredRoot(roots, n, v)
  }

  /** A set of expressions with everything they use. */
  ghost predicate Closed(s: Syntax, nodes: iset<nat>) {
    forall p, u: nat, x: nat :: Uses(s, p, u, x) && u in nodes ==> x in nodes
  }

  /** The tree of y contains x. */
  ghost predicate Leads(s: Syntax, y: nat, x: nat) {
    forall nodes: iset<nat> :: Closed(s, nodes) && y in nodes ==> x in nodes
  }

  ghost predicate HoldsTrees(s: Syntax, roots: seq<(nat, nat)>, nodes: iset<nat>) {
    Closed(s, nodes) && forall i :: 0 <= i < |roots| ==> roots[i].1 in nodes
  }

  /** No declared root leads to the expression. */
  ghost predicate Orphan(s: Syntax, roots: seq<(nat, nat)>, v: nat) {
    exists nodes: iset<nat> :: HoldsTrees(s, roots, nodes) && v !in nodes
  }

  /** An orphan that no expression with a smaller index leads to: the traversal starts a tree
      with it. */
  ghost predicate StartsTree(s: Syntax, roots: seq<(nat, nat)>, v: nat) {
    Orphan(s, roots, v) && forall y: nat :: y < v ==> !Leads(s, y, v)
  }

  ghost predicate TopsKnown(s: Syntax, b: Build, roots: seq<(nat, nat)>) {
    forall v :: v in b.order && v !in b.places ==> DeclaredRoot(roots, |roots|, v) || StartsTree(s, roots, v)
  }

  /** Orphans whose turn has not come have started no tree, and those whose turn has passed
      start one if and only if they hang nowhere; such a tree has no owner. */
  ghost predicate TurnsTaken(s: Syntax, b: Build, roots: seq<(nat, nat)>, n: nat) {
    && (forall v :: v in b.order && v !in b.places ==> DeclaredRoot(roots, |roots|, v) || v < n)
    && (forall v: nat :: v < n ==> v in b.order)
    && (forall v: nat :: v < n && v in b.places ==> !StartsTree(s, roots, v))
    && (forall v :: v in b.order && v !in b.places && !DeclaredRoot(roots, |roots|, v) ==> v < |b.owners| && b.owners[v].None?)
  }

  ghost predicate UsedSomewhere(s: Syntax, x: nat) {
    exists p, u: nat :: Uses(s, p, u, x)
  }

  /** What owner construction rejects: a conflict of uses, a root that does not exist, is used
      or is declared twice, or a used orphan that is met before the expression that uses it. */
  ghost predicate Defective(s: Syntax, roots: seq<(nat, nat)>) {
    || Conflict(s)
    || (exists i :: 0 <= i < |roots| && (roots[i].1 >= |s.expressions| || UsedSomewhere(s, roots[i].1)))
    || (exists i, j :: 0 <= i < j < |roots| && roots[i].1 == roots[j].1)
    || (exists x: nat :: UsedSomewhere(s, x) && StartsTree(s, roots, x))
  }

  lemma {:induction false} TopDefect(s: Syntax, b: Build, roots: seq<(nat, nat)>)
    requires TopUsed(s, b) && TopsKnown(s, b, roots)
    ensures Defective(s, roots)
  {
    hide Uses, StartsTree, Conflict;
    var p, u: nat, x: nat :| Uses(s, p, u, x) && x in b.order && x !in b.places;
    assert UsedSomewhere(s, x);
    if DeclaredRoot(roots, |roots|, x) {
      var i :| 0 <= i < |roots| && roots[i].1 == x;
    }
  }

  lemma {:induction false} DeclaredEarlier(roots: seq<(nat, nat)>, m: nat, n: nat, v: nat)
    requires m <= n && DeclaredRoot(roots, m, v)
    ensures DeclaredRoot(roots, n, v)
  {
  }

  lemma {:induction false} TopsNext(x: Build, y: Build, roots: seq<(nat, nat)>, i: nat)
    requires TopsDeclared(x, roots, i) && i < |roots| && TopsWithin(x, y, roots[i].1)
    ensures TopsDeclared(y, roots, i + 1)
  {
    forall v | v in y.order && v !in y.places ensures DeclaredRoot(roots, i + 1, v) {
      if v != roots[i].1 { DeclaredEarlier(roots, i, i + 1, v); }
    }
  }

  lemma {:induction false} DeclaredKnown(s: Syntax, b: Build, roots: seq<(nat, nat)>)
    requires TopsDeclared(b, roots, |roots|)
    ensures TopsKnown(s, b, roots)
  {
  }

  lemma {:induction false} RootFails(s: Syntax, x: Build, y: Build, roots: seq<(nat, nat)>, i: nat)
    requires Good(s, x) && Origins(s, x) && i < |roots| && TopsDeclared(x, roots, i) && TopsWithin(x, y, roots[i].1)
    requires var v := roots[i].1; v >= |s.expressions| || v in x.order || Conflict(s) || TopUsed(s, y)
    ensures Defective(s, roots)
  {
    hide Good, Origins, Uses, StartsTree, Conflict, TopUsed;
    var v := roots[i].1;
    if v in x.order {
      if v in x.places {
        var u := PlaceIsUse(s, x, v);
        assert UsedSomewhere(s, v);
      } else {
        assert DeclaredRoot(roots, i, v);
        var j :| 0 <= j < i && roots[j].1 == v;
      }
    } else if TopUsed(s, y) {
      TopsNext(x, y, roots, i);
      forall w | w in y.order && w !in y.places ensures DeclaredRoot(roots, |roots|, w) { DeclaredEarlier(roots, i + 1, |roots|, w); }
      TopDefect(s, y, roots);
    }
  }

  lemma {:induction false} RootAdded(s: Syntax, x: Build, y: Build, roots: seq<(nat, nat)>, i: nat)
    requires Good(s, x) && Good(s, y) && Grows(x, y) && i < |roots| && RootsIn(x, roots, i) && TopsDeclared(x, roots, i)
    requires TopsWithin(x, y, roots[i].1) && RootScheduled(y, roots[i].0, roots[i].1) && roots[i].1 !in x.order
    ensures RootsIn(y, roots, i + 1) && TopsDeclared(y, roots, i + 1)
  {
    TopsNext(x, y, roots, i);
    forall j | 0 <= j < i ensures roots[j].1 != roots[i].1 { assert RootScheduled(x, roots[j].0, roots[j].1); }
    hide Good, TopsDeclared, TopsWithin, RootScheduled;
    forall j | 0 <= j < i ensures RootScheduled(y, roots[j].0, roots[j].1) { RootKept(s, x, y, roots[j].0, roots[j].1); }
  }

  /** Between trees, what has been scheduled has everything it uses. */
  lemma {:induction false} OrderClosed(s: Syntax, b: Build)
    requires LinksInRange(s) && Good(s, b) && LinksDone(s, b, None) && Covered(s, b, None) && b.stack == []
    ensures Closed(s, iset x: nat | x in b.order)
  {
    var nodes := iset x: nat | x in b.order;
    hide RefsGood, OwnedGood, LinksDone, Uses, LinksInRange;
    forall p, u: nat, x: nat | Uses(s, p, u, x) && u in nodes ensures x in nodes {
      assert Expanded(s, b, u);
      UsePlaced(s, b, p, u, x);
    }
  }

  /** An expression that is still unscheduled when its turn comes starts a tree. */
  lemma {:induction false} OrphanFound(s: Syntax, b: Build, roots: seq<(nat, nat)>, v: nat)
    requires LinksInRange(s) && Good(s, b) && LinksDone(s, b, None) && Covered(s, b, None) && b.stack == [] && RootsIn(b, roots, |roots|)
    requires TurnsTaken(s, b, roots, v) && v !in b.order
    ensures StartsTree(s, roots, v)
  {
    OrderClosed(s, b);
    var nodes := iset x: nat | x in b.order;
    hide Good, LinksDone, Covered, LinksInRange, Closed;
    forall i | 0 <= i < |roots| ensures roots[i].1 in nodes { assert RootScheduled(b, roots[i].0, roots[i].1); }
    assert HoldsTrees(s, roots, nodes);
  }

  /** A scheduled expression lies in the tree of one that hangs nowhere. */
  lemma {:induction false} TopOf(s: Syntax, b: Build, x: nat, k: nat) returns (t: nat)
    requires Good(s, b) && Origins(s, b) && k < |b.order| && b.order[k] == x
    ensures t in b.order && t !in b.places && Leads(s, t, x)
    ensures x < |b.owners| && t < |b.owners| && b.owners[x] == b.owners[t]
    decreases k
  {
    if x in b.places {
      var u := PlaceIsUse(s, b, x);
      var i, j :| 0 <= i < j < |b.order| && b.order[i] == u && b.order[j] == x;
      assert j == k by { OrderDistinct(s, b); }
      hide Good, Origins, Uses;
      t := TopOf(s, b, u, i);
      assert Uses(s, b.places[x], u, x);
    } else {
      t := x;
    }
  }

  /** An expression that hangs somewhere when its turn comes starts no tree. */
  lemma {:induction false} HangingStartsNone(s: Syntax, b: Build, roots: seq<(nat, nat)>, v: nat)
    requires Good(s, b) && Origins(s, b) && TurnsTaken(s, b, roots, v) && v in b.places
    ensures !StartsTree(s, roots, v)
  {
    assert v in b.order;
    var k :| 0 <= k < |b.order| && b.order[k] == v;
    var t := TopOf(s, b, v, k);
    hide Good, Origins, Closed;
    if DeclaredRoot(roots, |roots|, t) { DeclaredLeads(s, roots, t, v); }
  }

  /** The turn of an expression that was scheduled before passes without effect. */
  lemma {:induction false} TurnPasses(s: Syntax, b: Build, roots: seq<(nat, nat)>, v: nat)
    requires Good(s, b) && Origins(s, b) && TurnsTaken(s, b, roots, v) && v in b.order
    ensures TurnsTaken(s, b, roots, v + 1)
  {
    hide Good, Origins, StartsTree, DeclaredRoot;
    if v in b.places { HangingStartsNone(s, b, roots, v); }
  }

  lemma {:induction false} OrphanTops(s: Syntax, x: Build, y: Build, roots: seq<(nat, nat)>, v: nat)
    requires TopsKnown(s, x, roots) && TopsWithin(x, y, v) && StartsTree(s, roots, v)
    ensures TopsKnown(s, y, roots)
  {
    hide StartsTree, DeclaredRoot;
  }

  lemma {:induction false} OrphanFails(s: Syntax, x: Build, y: Build, roots: seq<(nat, nat)>, v: nat)
    requires TopsKnown(s, x, roots) && TopsWithin(x, y, v) && StartsTree(s, roots, v) && v < |s.expressions| && v !in x.order
    requires v >= |s.expressions| || v in x.order || Conflict(s) || TopUsed(s, y)
    ensures Defective(s, roots)
  {
    OrphanTops(s, x, y, roots, v);
    hide TopsKnown, TopsWithin, StartsTree, Conflict, TopUsed;
    if TopUsed(s, y) { TopDefect(s, y, roots); }
  }

  lemma {:induction false} OrphanAdded(s: Syntax, x: Build, y: Build, roots: seq<(nat, nat)>, v: nat)
    requires Good(s, x) && Good(s, y) && Grows(x, y) && RootsIn(x, roots, |roots|) && TopsKnown(s, x, roots)
    requires TopsWithin(x, y, v) && StartsTree(s, roots, v)
    ensures RootsIn(y, roots, |roots|) && TopsKnown(s, y, roots)
  {
    OrphanTops(s, x, y, roots, v);
    hide Good, TopsKnown, TopsWithin, StartsTree, RootScheduled;
    forall j | 0 <= j < |roots| ensures RootScheduled(y, roots[j].0, roots[j].1) { RootKept(s, x, y, roots[j].0, roots[j].1); }
  }

  lemma {:induction false} OrphanTurn(s: Syntax, x: Build, y: Build, roots: seq<(nat, nat)>, v: nat)
    requires TurnsTaken(s, x, roots, v) && Grows(x, y) && TopsWithin(x, y, v) && v in y.order && v !in y.places && v < |y.owners| && y.owners[v].None?
    ensures TurnsTaken(s, y, roots, v + 1)
  {
    OrderKept(x, y);
    hide StartsTree, DeclaredRoot;
    forall w: nat | w <= v && w in y.places ensures !StartsTree(s, roots, w) { assert w in x.order && w in x.places; }
  }

  /** A declared root has its definition as owner and is used nowhere. */
  ghost predicate RootScheduled(b: Build, owner: nat, x: nat) {
    x < |b.owners| && x in b.order && x !in b.places && b.owners[x] == Some(owner)
  }

  ghost predicate Finished(s: Syntax, b: Build) {
    && Good(s, b) && LinksDone(s, b, None)
    && forall u: nat :: u < |s.expressions| ==> u in b.order && Expanded(s, b, u)
  }

  lemma {:induction false} NothingBuilt(s: Syntax, b: Build, roots: seq<(nat, nat)>)
    requires b.order == [] && b.refs == map[] && b.stack == []
    ensures Covered(s, b, None) && LinksDone(s, b, None) && RootsIn(b, roots, 0) && TopsDeclared(b, roots, 0)
  {
  }

  lemma {:induction false} AllFinished(s: Syntax, b: Build)
    requires Good(s, b) && LinksDone(s, b, None) && Covered(s, b, None) && b.stack == [] && forall v: nat :: v < |s.expressions| ==> v in b.order
    ensures Finished(s, b)
  {
    hide Good, LinksDone, Expanded;
  }

  lemma {:induction false} OrderKept(x: Build, y: Build)
    requires Grows(x, y)
    ensures forall v :: v in x.order ==> v in y.order
  {
  }

  lemma {:induction false} NoTurns(s: Syntax, b: Build, roots: seq<(nat, nat)>)
    requires TopsDeclared(b, roots, |roots|)
    ensures TurnsTaken(s, b, roots, 0)
  {
  }

  lemma {:induction false} AllTurns(s: Syntax, b: Build, roots: seq<(nat, nat)>, n: nat)
    requires TurnsTaken(s, b, roots, n)
    ensures forall v: nat :: v < n ==> v in b.order
  {
  }

  /** An expression scheduled without a place never gets one. */
  lemma {:induction false} PlaceLater(s: Syntax, x: Build, y: Build, v: nat)
    requires Good(s, x) && Good(s, y) && Grows(x, y) && v in x.order && v !in x.places
    ensures v !in y.places
  {
  }

  lemma {:induction false} RootKept(s: Syntax, x: Build, y: Build, owner: nat, v: nat)
    requires Good(s, x) && Good(s, y) && Grows(x, y) && RootScheduled(x, owner, v)
    ensures RootScheduled(y, owner, v)
  {
    PlaceLater(s, x, y, v);
    hide Good;
  }

  lemma {:induction false} RootStays(s: Syntax, x: Build, y: Build, v: nat, owner: Option<nat>)
    requires Good(s, x) && Good(s, y) && Grows(x, y) && v < |x.owners| && v in x.order && v !in x.places && x.owners[v] == owner
    ensures v < |y.owners| && v in y.order && v !in y.places && y.owners[v] == owner
  {
    PlaceLater(s, x, y, v);
    hide Good;
  }

  lemma {:induction false} Rooted(s: Syntax, b: Build, c: Build, x: nat, owner: Option<nat>)
    requires Good(s, b) && b.stack == [] && Covered(s, b, None) && LinksDone(s, b, None) && x < |b.owners| && x !in b.order
    requires c == Scheduled(b, x, owner, None) && Advances(b, c, owner)
    ensures Covered(s, c, None) && LinksDone(s, c, None) && StackOwned(c, owner) && Grows(b, c)
    ensures x in c.order && x !in c.places && c.owners[x] == owner
  {
    CoveredLater(s, b, c, owner, None);
    LinksDoneLater(s, b, c, None);
    assert x !in b.places;
    hide Good, Covered, LinksDone, Grows;
  }

  lemma {:induction false} OrderFits(s: Syntax, b: Build)
    requires Good(s, b)
    ensures |b.order| <= |s.expressions|
  {
    hide PlacesGood, RefsGood, OwnedGood;
    DistinctBelow(b.order, |s.expressions|);
  }

  /** Taking the top of the stack leaves one expression to be expanded. */
  /** The fixed stack: every expression is on it once, to be entered or to be left, so that one
      entry for each is enough. */
  lemma {:induction false} StackFits(s: Syntax, b: Build, leaving: seq<nat>)
    requires Good(s, b) && Origins(s, b)
    requires Distinct(leaving) && forall x :: x in leaving ==> x in b.order && x !in b.stack
    ensures |b.stack| + |leaving| <= |s.expressions|
  {
    hide PlacesGood, RefsGood, OwnedGood;
    var both := b.stack + leaving;
    forall i, j | 0 <= i < j < |both| ensures both[i] != both[j] {
      assert both[i] == if i < |b.stack| then b.stack[i] else leaving[i - |b.stack|];
      assert both[j] == if j < |b.stack| then b.stack[j] else leaving[j - |b.stack|];
      assert j >= |b.stack| ==> leaving[j - |b.stack|] in leaving;
      assert i < |b.stack| ==> b.stack[i] in b.stack;
    }
    DistinctBelow(both, |s.expressions|);
  }

  lemma {:induction false} Popped(s: Syntax, b: Build, owner: Option<nat>)
    requires Good(s, b) && StackOwned(b, owner) && Covered(s, b, None) && LinksDone(s, b, None) && b.stack != []
    ensures var n := |b.stack| - 1; var u, c := b.stack[n], b.(stack := b.stack[..n]);
            && Good(s, c) && StackOwned(c, owner) && Covered(s, c, Some(u)) && LinksDone(s, c, None) && Grows(b, c)
            && u in c.order && u < |c.owners| && c.owners[u] == owner
  {
    var n := |b.stack| - 1;
    var u, c := b.stack[n], b.(stack := b.stack[..n]);
    assert b.stack == b.stack[..n] + [u];
    GoodAnyStack(s, b, c);
    GrowsAnyStack(b, c);
    LinksDoneLater(s, b, c, None);
    hide Good, LinksDone, Expanded, Grows;
    assert u in b.stack;
    forall x | x in c.stack ensures x in b.stack { }
    forall x | x in c.order && x != u ensures x in c.stack || Expanded(s, c, x) {
      if x !in b.stack { ExpandedGrows(s, b, c, x); }
    }
  }

  lemma {:induction false} GrowsAnyStack(b: Build, c: Build)
    requires c == b.(stack := c.stack)
    ensures Grows(b, c)
  {
  }

  lemma {:induction false} GoodAnyStack(s: Syntax, b: Build, c: Build)
    requires Good(s, b) && c == b.(stack := c.stack)
    ensures Good(s, c)
  {
    hide Distinct;
    forall x | x in c.places ensures x in c.order && PlaceGood(s, c, x) { assert PlaceGood(s, b, x); }
    forall l | l in c.refs ensures RefGood(s, c, l) { assert RefGood(s, b, l); }
    forall l: nat | LinkOwned(c, l) ensures l in c.refs && c.linkOwners[l].value in c.order { assert LinkOwned(b, l); }
  }

  lemma {:induction false} FullyExpanded(s: Syntax, x: Build, y: Build, z: Build, owner: Option<nat>, u: nat)
    requires Covered(s, x, Some(u)) && Advances(x, y, owner) && Advances(y, z, owner) && u < |s.expressions|
    requires OperandsPlaced(s, y, u, |s.expressions[u].operands|)
    requires s.expressions[u].first.Some? ==> HasRef(z, s.expressions[u].first.value, Head(u))
    ensures Covered(s, z, None)
  {
    AdvancesOn(x, y, z, owner);
    CoveredLater(s, x, z, owner, Some(u));
    OperandsGrow(s, y, z, u, |s.expressions[u].operands|);
    assert Expanded(s, z, u);
  }

  lemma {:induction false} Progress(start: Build, x: Build, z: Build, owner: Option<nat>)
    requires start.stack != [] && x == start.(stack := start.stack[..|start.stack| - 1]) && Advances(x, z, owner)
    ensures Grows(start, z)
    ensures |z.order| > |start.order| || (z.order == start.order && |z.stack| < |start.stack|)
  {
    GrowsAnyStack(start, x);
    GrowsOn(start, x, z);
    if |z.order| == |start.order| {
      assert z.order == start.order;
    }
  }

  /** The state of the loop over a list: the element before the next one is complete but
      for its reference. */
  ghost predicate Following(s: Syntax, b: Build, u: nat, current: Option<nat>, link: Option<nat>) {
    && u < |s.expressions| && (link.Some? ==> link.value < |s.links|)
    && match current
       case None => link == s.expressions[u].first
       case Some(k) =>
         && k < |s.links| && k < |b.linkOwners| && b.linkOwners[k] == Some(u) && s.links[k].next == link
         && ValuesPlaced(s, b, k, |s.links[k].values|)
         && s.expressions[u].first.Some? && HasRef(b, s.expressions[u].first.value, Head(u))
  }

  lemma {:induction false} NextClaim(s: Syntax, b: Build, u: nat, current: Option<nat>, link: Option<nat>, r: Ref)
    requires Following(s, b, u, current, link) && link.Some? && u in b.order && link.value < |b.linkOwners| && b.linkOwners[link.value].None?
    requires r == if current.Some? then Next(current.value) else Head(u)
    ensures MayClaim(s, b, link.value, u, r)
  {
    hide ValuesPlaced;
  }

  lemma {:induction false} FollowedOn(s: Syntax, x: Build, y: Build, z: Build, u: nat, current: Option<nat>, l: nat, r: Ref, owner: Option<nat>)
    requires LinksInRange(s) && Following(s, x, u, current, Some(l)) && l < |x.linkOwners| == |s.links| && y == Claimed(x, l, u, r)
    requires r == (if current.Some? then Next(current.value) else Head(u)) && l !in x.refs
    requires Advances(y, z, owner) && z.refs == y.refs && z.linkOwners == y.linkOwners && ValuesPlaced(s, z, l, |s.links[l].values|)
    ensures Following(s, z, u, Some(l), s.links[l].next)
  {
    hide ValuesPlaced, Advances;
  }

  lemma {:induction false} ListDone(s: Syntax, b: Build, u: nat, current: Option<nat>)
    requires Following(s, b, u, current, None) && LinksDone(s, b, current)
    ensures LinksDone(s, b, None)
    ensures s.expressions[u].first.Some? ==> HasRef(b, s.expressions[u].first.value, Head(u))
  {
    if current.Some? { assert LinkDone(s, b, current.value); }
  }

  lemma {:induction false} SetBelow(s: set<nat>, n: nat)
    requires forall x :: x in s ==> x < n
    ensures |s| <= n
    decreases n
  {
    if n > 0 {
      SetBelow(s - {n - 1}, n - 1);
    } else {
      assert s == {};
    }
  }

  lemma {:induction false} RefsFit(s: Syntax, b: Build)
    requires Good(s, b)
    ensures |b.refs| <= |s.links|
  {
    hide PlacesGood, OwnedGood, Distinct;
    forall l | l in b.refs.Keys ensures l < |s.links| { assert RefGood(s, b, l); }
    SetBelow(b.refs.Keys, |s.links|);
    assert |b.refs| == |b.refs.Keys|;
  }

  lemma {:induction false} MoreRefs(x: Build, l: nat, r: Ref)
    requires l !in x.refs
    ensures |x.refs[l := r]| == |x.refs| + 1
  {
    assert x.refs[l := r].Keys == x.refs.Keys + {l};
  }

  lemma {:induction false} NoAdvance(x: Build, owner: Option<nat>)
    requires StackOwned(x, owner)
    ensures Advances(x, x, owner)
  {
  }

  // --------------------------------------------------------------------- what is accepted

  ghost predicate RootsUnused(s: Syntax, owners: seq<Option<nat>>, roots: seq<(nat, nat)>) {
    forall i :: 0 <= i < |roots| ==>
      && roots[i].1 < |owners| && owners[roots[i].1] == Some(roots[i].0)
      && forall p, u :: !Uses(s, p, u, roots[i].1)
  }

  lemma {:induction false} UserInRange(s: Syntax, p: Place, u: nat, x: nat)
    requires Uses(s, p, u, x)
    ensures u < |s.expressions|
  {
  }

  /** The list of u has been claimed for u. */
  lemma {:induction false} ListClaimed(s: Syntax, b: Build, u: nat, l: nat)
    requires Good(s, b) && LinksDone(s, b, None) && Expanded(s, b, u) && LinksInRange(s) && InList(s, u, l)
    ensures l in b.refs && l < |b.linkOwners| && b.linkOwners[l] == Some(u)
  {
    hide PlacesGood, OrderGood;
    var mine := iset k: nat | k in b.refs && k < |b.linkOwners| && b.linkOwners[k] == Some(u);
    var head := s.expressions[u].first.value;
    assert Expanded(s, b, u);
    assert RefGood(s, b, head) && head in mine;
    forall e | e in LinkGraph(s) && e.0 in mine ensures e.1 in mine {
      assert LinkDone(s, b, e.0);
      assert RefGood(s, b, e.1);
    }
    ClosedUnderReach(LinkGraph(s), mine, head, l);
  }

  lemma {:induction false} UsePlaced(s: Syntax, b: Build, p: Place, u: nat, x: nat)
    requires Good(s, b) && LinksDone(s, b, None) && Expanded(s, b, u) && LinksInRange(s) && Uses(s, p, u, x)
    ensures HasPlace(b, x, p) && Holder(b, p) == Some(u)
  {
    match p
    case Operand(_, i) => assert Expanded(s, b, u);
    case Item(l, i) =>
      ListClaimed(s, b, u, l);
      assert LinkDone(s, b, l);
  }

  lemma {:induction false} UseOfLinkClaimed(s: Syntax, b: Build, r: Ref, u: nat, l: nat)
    requires Finished(s, b) && LinksInRange(s) && UsesLink(s, r, u, l)
    ensures HasRef(b, l, r) && l < |b.linkOwners| && b.linkOwners[l] == Some(u)
  {
    match r
    case Head(_) =>
      assert Expanded(s, b, u);
      assert RefGood(s, b, l);
    case Next(k) =>
      ListClaimed(s, b, u, k);
      assert LinkDone(s, b, k);
      assert RefGood(s, b, l);
  }

  lemma {:induction false} FinishedIsForest(s: Syntax, b: Build, roots: seq<(nat, nat)>)
    requires Finished(s, b) && LinksInRange(s) && forall i :: 0 <= i < |roots| ==> RootScheduled(b, roots[i].0, roots[i].1)
    ensures OwnedTrees(s, b.owners, b.order) && OneParent(s) && OneList(s) && RootsUnused(s, b.owners, roots)
  {
    hide Uses, UsesLink, LinksInRange, RefsGood, OwnedGood, Expanded, LinksDone;
    forall p, u: nat, x: nat | Uses(s, p, u, x) ensures Expanded(s, b, u) { UserInRange(s, p, u, x); }
    forall p, u: nat, x: nat | Uses(s, p, u, x) ensures u < |b.owners| && x < |b.owners| && b.owners[x] == b.owners[u] && Earlier(b.order, u, x) {
      UsePlaced(s, b, p, u, x);
      PlaceFacts(s, b, p, u, x);
    }
    forall p, u, q, v, x | Uses(s, p, u, x) && Uses(s, q, v, x) ensures p == q && u == v {
      UsePlaced(s, b, p, u, x);
      UsePlaced(s, b, q, v, x);
    }
    forall r, u, t, v, l | UsesLink(s, r, u, l) && UsesLink(s, t, v, l) ensures r == t && u == v {
      UseOfLinkClaimed(s, b, r, u, l);
      UseOfLinkClaimed(s, b, t, v, l);
    }
    forall i, p, u | 0 <= i < |roots| ensures !Uses(s, p, u, roots[i].1) {
      assert RootScheduled(b, roots[i].0, roots[i].1);
      if Uses(s, p, u, roots[i].1) { UsePlaced(s, b, p, u, roots[i].1); }
    }
  }

  /** What no declaration leads to has no owner. */
  ghost predicate OrphansUnowned(s: Syntax, roots: seq<(nat, nat)>, owners: seq<Option<nat>>) {
    forall v: nat :: v < |owners| && Orphan(s, roots, v) ==> owners[v].None?
  }

  lemma {:induction false} DeclaredLeads(s: Syntax, roots: seq<(nat, nat)>, t: nat, v: nat)
    requires DeclaredRoot(roots, |roots|, t) && Leads(s, t, v)
    ensures !Orphan(s, roots, v)
  {
    hide Closed;
  }

  lemma {:induction false} UnownedOrphan(s: Syntax, b: Build, roots: seq<(nat, nat)>, v: nat)
    requires Good(s, b) && Origins(s, b) && TurnsTaken(s, b, roots, |s.expressions|) && v < |s.expressions| && Orphan(s, roots, v)
    ensures v < |b.owners| && b.owners[v].None?
  {
    hide Good, Origins, Orphan, DeclaredRoot, Leads, StartsTree;
    assert v in b.order;
    var k :| 0 <= k < |b.order| && b.order[k] == v;
    var t := TopOf(s, b, v, k);
    if DeclaredRoot(roots, |roots|, t) { DeclaredLeads(s, roots, t, v); }
  }

  lemma {:induction false} UnownedOrphans(s: Syntax, b: Build, roots: seq<(nat, nat)>)
    requires Good(s, b) && Origins(s, b) && TurnsTaken(s, b, roots, |s.expressions|) && |b.owners| == |s.expressions|
    ensures OrphansUnowned(s, roots, b.owners)
  {
    hide Good, Origins, TurnsTaken, Orphan;
    forall v: nat | v < |b.owners| && Orphan(s, roots, v) ensures b.owners[v].None? { UnownedOrphan(s, b, roots, v); }
  }

  /** What has been accepted has no defect. */
  lemma {:induction false} FinishedIsSound(s: Syntax, b: Build, roots: seq<(nat, nat)>)
    requires Finished(s, b) && LinksInRange(s) && RootsIn(b, roots, |roots|) && TurnsTaken(s, b, roots, |s.expressions|)
    ensures !Defective(s, roots)
  {
    FinishedIsForest(s, b, roots);
    forall x: nat | UsedSomewhere(s, x) ensures x < |s.expressions| && !StartsTree(s, roots, x) {
      var p, u: nat :| Uses(s, p, u, x);
      UserInRange(s, p, u, x);
      UsePlaced(s, b, p, u, x);
      PlaceFacts(s, b, p, u, x);
    }
    hide Finished, LinksInRange, TurnsTaken, OwnedTrees, OneParent, OneList, StartsTree, Uses;
    forall p, u: nat, x: nat | Uses(s, p, u, x) ensures x < |s.expressions| { assert UsedSomewhere(s, x); }
    forall i | 0 <= i < |roots| ensures roots[i].1 < |s.expressions| && !UsedSomewhere(s, roots[i].1) {
      assert RootScheduled(b, roots[i].0, roots[i].1);
    }
  }

  lemma {:induction false} PlaceFacts(s: Syntax, b: Build, p: Place, u: nat, x: nat)
    requires Finished(s, b) && HasPlace(b, x, p) && Holder(b, p) == Some(u)
    ensures u < |b.owners| && x < |b.owners| && b.owners[x] == b.owners[u] && Earlier(b.order, u, x)
  {
    hide LinksDone, Expanded, RefsGood, OwnedGood, OrderGood;
    assert PlaceGood(s, b, x);
  }

  /** Owner construction: it accepts exactly the syntax without defects, and this is a forest,
      whatever the next links look like. */
  method Construct(s: Syntax, roots: seq<(nat, nat)>) returns (ok: bool, owners: seq<Option<nat>>, ghost order: seq<nat>)
    requires LinksInRange(s)
    ensures ok ==> |owners| == |s.expressions| && Distinct(order) && (forall u: nat :: u < |s.expressions| ==> u in order)
    ensures ok ==> OwnedTrees(s, owners, order) && OneParent(s) && OneList(s) && RootsUnused(s, owners, roots)
    ensures ok ==> OrphansUnowned(s, roots, owners)
    ensures ok <==> !Defective(s, roots)
  {
    hide Defective, OrphansUnowned, Origins, TurnsTaken, Good, LinksDone, Expanded, LinksInRange, OwnedTrees, OneParent, OneList, RootsUnused;
    var builder := new Builder(s);
    ok := builder.BuildAll(roots);
    owners, order := builder.owners, builder.b.order;
    if ok {
      FinishedIsForest(s, builder.b, roots);
      FinishedIsSound(s, builder.b, roots);
      UnownedOrphans(s, builder.b, roots);
      OrderDistinct(s, builder.b);
    }
  }

  lemma {:induction false} OrderDistinct(s: Syntax, b: Build)
    requires Good(s, b)
    ensures Distinct(b.order)
  {
  }
}
