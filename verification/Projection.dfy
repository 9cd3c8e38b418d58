/**
 Which physical blocks of a record are current, which are history, and in what order: the
 one-pass Reader projection, the semantic envelope built beside it, and the declarative
 selection used by validation.

 A block is identified by its physical position; its content plays no part here.
 */
module Projection {
  import opened Common
  import opened Flatten

  /** What is read of a block: its section, lifecycle, variant label, role, and whether its payload is external. */
  datatype Block = Block(section: string, history: bool, variant: Option<string>, role: bool, external: bool)

  const PARALLEL: set<string> := {
    "operating_statement", "stress_tests", "due_diligence", "lease_up_schedule",
    "cash_flow_series", "distribution_waterfall", "reserve_accounts"}

  const APPEND: set<string> := {"pipeline_log", "custom_calculations", "custom_scenarios"}

  const DEFAULT: string := "default"

  predicate Appended(section: string) {
    section in APPEND
  }

  predicate Extension(section: string) {
    |section| >= 2 && section[0] == 'x' && section[1] == '_'
  }

  /** Sections that keep one block a variant: registered ones, and those with both a role and a variant. */
  predicate Parallel(blocks: seq<Block>, section: string) {
    || section in PARALLEL
    || ((exists k :: 0 <= k < |blocks| && blocks[k].section == section && !blocks[k].history && blocks[k].role)
        && (exists k ::
              0 <= k < |blocks| && blocks[k].section == section && !blocks[k].history && blocks[k].variant.Some?))
  }

  /** The place a current block takes in its section. */
  function Identity(blocks: seq<Block>, b: Block): Option<string> {
    if !Parallel(blocks, b.section) then None
    else if !Extension(b.section) && b.variant.None? then Some(DEFAULT)
    else b.variant
  }

  datatype Key = Key(section: string, identity: Option<string>)

  function KeyOf(blocks: seq<Block>, i: nat): Key
    requires i < |blocks|
  {
    Key(blocks[i].section, Identity(blocks, blocks[i]))
  }

  /** A block that can be current. */
  predicate Active(blocks: seq<Block>, i: nat)
    requires i < |blocks|
  {
    !blocks[i].history && !Appended(blocks[i].section)
  }

  // ----- The routing of physical blocks -----

  /** Current block by place, history by section, append lists; all by physical position. */
  datatype Ledger = Ledger(current: map<Key, nat>, history: map<string, seq<nat>>, logs: map<string, seq<nat>>)

  function Listed(m: map<string, seq<nat>>, section: string): seq<nat> {
    if section in m then m[section] else []
  }

  function Added(m: map<string, seq<nat>>, section: string, i: nat): map<string, seq<nat>> {
    m[section := Listed(m, section) + [i]]
  }

  function Route(blocks: seq<Block>, l: Ledger, i: nat): Ledger
    requires i < |blocks|
  {
    var b := blocks[i];
    var key := KeyOf(blocks, i);
    if Appended(b.section) then l.(logs := Added(l.logs, b.section, i))
    else if b.history then l.(history := Added(l.history, b.section, i))
    else if key in l.current then
      Ledger(l.current[key := i], Added(l.history, b.section, l.current[key]), l.logs)
    else l.(current := l.current[key := i])
  }

  function Routed(blocks: seq<Block>, n: nat): Ledger
    requires n <= |blocks|
  {
    if n == 0 then Ledger(map[], map[], map[]) else Route(blocks, Routed(blocks, n - 1), n - 1)
  }

  // ----- Last wins -----

  /** The last active block at a key among the first n. */
  function LastAt(blocks: seq<Block>, key: Key, n: nat): Option<nat>
    requires n <= |blocks|
  {
    if n == 0 then None
    else if Active(blocks, n - 1) && KeyOf(blocks, n - 1) == key then Some(n - 1)
    else LastAt(blocks, key, n - 1)
  }

  lemma {:induction false} CurrentIsLast(blocks: seq<Block>, n: nat, key: Key)
    requires n <= |blocks|
    ensures var l := Routed(blocks, n);
            LastAt(blocks, key, n) == if key in l.current then Some(l.current[key]) else None
  {
    hide KeyOf, Appended;
    if n > 0 {
      CurrentIsLast(blocks, n - 1, key);
    }
  }

  lemma {:induction false} LastIsThere(blocks: seq<Block>, key: Key, n: nat)
    requires n <= |blocks|
    ensures LastAt(blocks, key, n).Some? ==>
              var i := LastAt(blocks, key, n).value;
              i < n && Active(blocks, i) && KeyOf(blocks, i) == key
    ensures forall j :: 0 <= j < n && Active(blocks, j) && KeyOf(blocks, j) == key ==>
              LastAt(blocks, key, n).Some? && j <= LastAt(blocks, key, n).value
  {
    hide KeyOf, Active;
    if n > 0 {
      LastIsThere(blocks, key, n - 1);
    }
  }

  // ----- Every block is accounted for once -----

  function Occurrences(s: seq<nat>, q: nat): nat {
    multiset(s)[q]
  }

  /** How often a block is kept: as current, in history, in an append list. */
  function Places(blocks: seq<Block>, l: Ledger, q: nat): nat
    requires q < |blocks|
  {
    var key := KeyOf(blocks, q);
    Once(key in l.current && l.current[key] == q)
    + Occurrences(Listed(l.history, key.section), q)
    + Occurrences(Listed(l.logs, key.section), q)
  }

  /** Current blocks are among the first n, each at its own key. */
  ghost predicate CurrentAtHome(blocks: seq<Block>, current: map<Key, nat>, n: nat)
    requires n <= |blocks|
  {
    forall key :: key in current ==> current[key] < n && KeyOf(blocks, current[key]) == key
  }

  /** Listed blocks are among the first n, each under its own section. */
  ghost predicate ListsAtHome(blocks: seq<Block>, lists: map<string, seq<nat>>, n: nat)
    requires n <= |blocks|
  {
    forall s, k :: s in lists && 0 <= k < |lists[s]| ==> lists[s][k] < n && blocks[lists[s][k]].section == s
  }

  ghost predicate AtHome(blocks: seq<Block>, l: Ledger, n: nat)
    requires n <= |blocks|
  {
    CurrentAtHome(blocks, l.current, n) && ListsAtHome(blocks, l.history, n) && ListsAtHome(blocks, l.logs, n)
  }

  lemma AddedList(m: map<string, seq<nat>>, section: string, i: nat, s: string)
    ensures Listed(Added(m, section, i), s) == Listed(m, s) + (if s == section then [i] else [])
  {
    assert Listed(m, s) + [] == Listed(m, s);
  }

  lemma OccurrencesMore(s: seq<nat>, i: nat, q: nat)
    ensures Occurrences(s + [i], q) == Occurrences(s, q) + Once(i == q)
    ensures Occurrences(s, q) > 0 <==> q in s
  {
  }

  lemma ListsMore(blocks: seq<Block>, lists: map<string, seq<nat>>, n: nat)
    requires n < |blocks| && ListsAtHome(blocks, lists, n)
    ensures ListsAtHome(blocks, lists, n + 1)
  {
  }

  lemma CurrentMore(blocks: seq<Block>, current: map<Key, nat>, n: nat)
    requires n < |blocks| && CurrentAtHome(blocks, current, n)
    ensures CurrentAtHome(blocks, current, n + 1)
    ensures CurrentAtHome(blocks, current[KeyOf(blocks, n) := n], n + 1)
  {
    hide KeyOf;
  }

  lemma ListsAdded(blocks: seq<Block>, lists: map<string, seq<nat>>, i: nat, n: nat)
    requires n < |blocks| && ListsAtHome(blocks, lists, n) && i <= n
    ensures ListsAtHome(blocks, Added(lists, blocks[i].section, i), n + 1)
  {
  }

  lemma RouteKeepsHome(blocks: seq<Block>, l: Ledger, i: nat)
    requires i < |blocks| && AtHome(blocks, l, i)
    ensures AtHome(blocks, Route(blocks, l, i), i + 1)
  {
    var b := blocks[i];
    var key := KeyOf(blocks, i);
    assert key.section == b.section;
    ListsMore(blocks, l.history, i);
    ListsMore(blocks, l.logs, i);
    ListsAdded(blocks, l.logs, i, i);
    ListsAdded(blocks, l.history, i, i);
    CurrentMore(blocks, l.current, i);
    if key in l.current {
      assert KeyOf(blocks, l.current[key]) == key && l.current[key] < i;
      assert blocks[l.current[key]].section == b.section;
      ListsAdded(blocks, l.history, l.current[key], i);
    }
    hide KeyOf, Appended, Added, ListsAtHome, CurrentAtHome;
  }

  lemma {:induction false} AllAtHome(blocks: seq<Block>, n: nat)
    requires n <= |blocks|
    ensures AtHome(blocks, Routed(blocks, n), n)
  {
    hide AtHome, Route;
    if n == 0 {
      EmptyAtHome(blocks);
    } else {
      AllAtHome(blocks, n - 1);
      RouteKeepsHome(blocks, Routed(blocks, n - 1), n - 1);
    }
  }

  lemma EmptyAtHome(blocks: seq<Block>)
    ensures AtHome(blocks, Ledger(map[], map[], map[]), 0)
  {
  }

  /** Routing block i keeps it once and moves no other block out of the account. */
  lemma RoutePlaces(blocks: seq<Block>, l: Ledger, i: nat, q: nat)
    requires i < |blocks| && q < |blocks| && AtHome(blocks, l, i)
    ensures Places(blocks, Route(blocks, l, i), q) == Places(blocks, l, q) + Once(q == i)
  {
    var b := blocks[i];
    var key := KeyOf(blocks, i);
    hide AtHome, Places, KeyOf;
    if Appended(b.section) {
      LoggedPlaces(blocks, l, i, q);
    } else if b.history {
      HistoryPlaces(blocks, l, i, q);
    } else {
      CurrentPlaces(blocks, l, i, q);
    }
  }

  lemma SectionOf(blocks: seq<Block>, i: nat)
    requires i < |blocks|
    ensures KeyOf(blocks, i).section == blocks[i].section
  {
  }

  /** One more entry in the list of the entry's own section. */
  lemma AddedOccurrences(blocks: seq<Block>, lists: map<string, seq<nat>>, i: nat, q: nat)
    requires i < |blocks| && q < |blocks|
    ensures var s := blocks[q].section;
            Occurrences(Listed(Added(lists, blocks[i].section, i), s), q)
                == Occurrences(Listed(lists, s), q) + Once(q == i)
  {
    var s := blocks[q].section;
    AddedList(lists, blocks[i].section, i, s);
    hide Added, Listed;
    OccurrencesMore(Listed(lists, s), i, q);
    assert Listed(lists, s) + [] == Listed(lists, s);
  }

  lemma LoggedPlaces(blocks: seq<Block>, l: Ledger, i: nat, q: nat)
    requires i < |blocks| && q < |blocks| && Appended(blocks[i].section)
    ensures Places(blocks, Route(blocks, l, i), q) == Places(blocks, l, q) + Once(q == i)
  {
    SectionOf(blocks, q);
    AddedOccurrences(blocks, l.logs, i, q);
    hide KeyOf, Appended, Added, Listed, Occurrences, Once;
  }

  lemma HistoryPlaces(blocks: seq<Block>, l: Ledger, i: nat, q: nat)
    requires i < |blocks| && q < |blocks| && !Appended(blocks[i].section) && blocks[i].history
    ensures Places(blocks, Route(blocks, l, i), q) == Places(blocks, l, q) + Once(q == i)
  {
    SectionOf(blocks, q);
    AddedOccurrences(blocks, l.history, i, q);
    hide KeyOf, Appended, Added, Listed, Occurrences, Once;
  }

  /** Replacing the block at a key takes the old one out of the current blocks and puts the new one in. */
  lemma CurrentTimes(blocks: seq<Block>, current: map<Key, nat>, i: nat, q: nat)
    requires i < |blocks| && q < |blocks| && CurrentAtHome(blocks, current, i)
    ensures var key, home := KeyOf(blocks, i), KeyOf(blocks, q);
            Once(home in current[key := i] && current[key := i][home] == q)
            == Once(home in current && current[home] == q) + Once(q == i)
               - (if key in current then Once(q == current[key]) else 0)
  {
    hide KeyOf;
  }

  lemma CurrentPlaces(blocks: seq<Block>, l: Ledger, i: nat, q: nat)
    requires i < |blocks| && q < |blocks| && AtHome(blocks, l, i) && !Appended(blocks[i].section) && !blocks[i].history
    ensures Places(blocks, Route(blocks, l, i), q) == Places(blocks, l, q) + Once(q == i)
  {
    var key := KeyOf(blocks, i);
    SectionOf(blocks, q);
    SectionOf(blocks, i);
    CurrentTimes(blocks, l.current, i, q);
    if key in l.current {
      var out := l.current[key];
      assert KeyOf(blocks, out) == key;
      SectionOf(blocks, out);
      AddedOccurrences(blocks, l.history, out, q);
    }
    hide KeyOf, Appended, Added, Listed, Occurrences, Once, AtHome;
  }

  lemma {:induction false} PlacesSoFar(blocks: seq<Block>, n: nat, q: nat)
    requires n <= |blocks| && q < |blocks|
    ensures Places(blocks, Routed(blocks, n), q) == Once(q < n)
  {
    hide KeyOf, Route, AtHome;
    if n > 0 {
      PlacesSoFar(blocks, n - 1, q);
      AllAtHome(blocks, n - 1);
      hide Places;
      RoutePlaces(blocks, Routed(blocks, n - 1), n - 1, q);
    }
  }

  /**
   Physical accounting: every block of a record is kept exactly once among the current blocks,
   the histories and the append lists, and nowhere but under its own section and identity.
   */
  lemma EveryBlockOnce(blocks: seq<Block>, q: nat)
    requires q < |blocks|
    ensures var l := Routed(blocks, |blocks|);
            && Places(blocks, l, q) == 1
            && (forall key :: key in l.current && l.current[key] == q ==> key == KeyOf(blocks, q))
            && (forall s :: q in Listed(l.history, s) || q in Listed(l.logs, s) ==> s == blocks[q].section)
  {
    hide Places, Routed, KeyOf;
    PlacesSoFar(blocks, |blocks|, q);
    AllAtHome(blocks, |blocks|);
  }

  // ----- The declarative selection -----

  predicate ActiveIn(blocks: seq<Block>, section: string, i: nat)
    requires i < |blocks|
  {
    blocks[i].section == section && !blocks[i].history
  }

  /** Two blocks of a section compete: one variant a peer where the section is parallel. */
  predicate Competes(blocks: seq<Block>, section: string, i: nat, j: nat)
    requires i < |blocks| && j < |blocks|
  {
    Parallel(blocks, section) ==> blocks[i].variant == blocks[j].variant
  }

  /** The block is current by selection: active, with no later competitor. */
  ghost predicate Selected(blocks: seq<Block>, section: string, i: nat) {
    && i < |blocks| && ActiveIn(blocks, section, i)
    && forall j :: i < j < |blocks| && ActiveIn(blocks, section, j) ==> !Competes(blocks, section, i, j)
  }

  /** The block is current by projection. */
  ghost predicate Projected(blocks: seq<Block>, section: string, i: nat) {
    exists key: Key :: key.section == section && Holds(Routed(blocks, |blocks|), key, i)
  }

  predicate Holds(l: Ledger, key: Key, i: nat) {
    key in l.current && l.current[key] == i
  }

  /** An unlabelled peer beside one labelled with the literal default name. */
  ghost predicate Collides(blocks: seq<Block>, section: string) {
    && Parallel(blocks, section) && !Extension(section)
    && (exists i :: 0 <= i < |blocks| && ActiveIn(blocks, section, i) && blocks[i].variant.None?)
    && (exists i :: 0 <= i < |blocks| && ActiveIn(blocks, section, i) && blocks[i].variant == Some(DEFAULT))
  }

  /** By projection a block is current when no later active block has its key. */
  lemma ProjectedMeansLast(blocks: seq<Block>, section: string, i: nat)
    requires !Appended(section)
    ensures Projected(blocks, section, i) <==>
            && i < |blocks| && ActiveIn(blocks, section, i)
            && forall j :: i < j < |blocks| && ActiveIn(blocks, section, j) ==> KeyOf(blocks, i) != KeyOf(blocks, j)
  {
    var l := Routed(blocks, |blocks|);
    if Projected(blocks, section, i) {
      var key: Key :| key.section == section && Holds(l, key, i);
      CurrentIsLast(blocks, |blocks|, key);
      LastIsThere(blocks, key, |blocks|);
      SectionOf(blocks, i);
      hide KeyOf, Routed, LastAt, Appended;
    } else if i < |blocks| && ActiveIn(blocks, section, i) {
      var key := KeyOf(blocks, i);
      SectionOf(blocks, i);
      CurrentIsLast(blocks, |blocks|, key);
      LastIsThere(blocks, key, |blocks|);
      var last := LastAt(blocks, key, |blocks|).value;
      SectionOf(blocks, last);
      hide KeyOf, Routed, LastAt, Appended;
      assert Active(blocks, i);
      assert Holds(l, key, last);
      assert i < last && ActiveIn(blocks, section, last);
    }
  }

  /** Away from a collision, blocks of a section share a key exactly when they compete. */
  lemma SameKey(blocks: seq<Block>, section: string, i: nat, j: nat)
    requires i < |blocks| && j < |blocks| && ActiveIn(blocks, section, i) && ActiveIn(blocks, section, j)
    ensures Competes(blocks, section, i, j) ==> KeyOf(blocks, i) == KeyOf(blocks, j)
    ensures !Collides(blocks, section) && KeyOf(blocks, i) == KeyOf(blocks, j) ==> Competes(blocks, section, i, j)
    ensures Parallel(blocks, section) && !Extension(section) && blocks[i].variant.None?
            && blocks[j].variant == Some(DEFAULT) ==>
              KeyOf(blocks, i) == KeyOf(blocks, j) && !Competes(blocks, section, i, j)
  {
    hide Parallel, Extension;
  }

  /** The last active block of a variant is selected. */
  lemma {:induction false} LastOfVariant(blocks: seq<Block>, section: string, i: nat) returns (last: nat)
    requires i < |blocks| && ActiveIn(blocks, section, i) && Parallel(blocks, section)
    ensures Selected(blocks, section, last) && blocks[last].variant == blocks[i].variant
    decreases |blocks| - i
  {
    hide Parallel;
    if j :| i < j < |blocks| && ActiveIn(blocks, section, j) && Competes(blocks, section, i, j) {
      last := LastOfVariant(blocks, section, j);
    } else {
      last := i;
    }
  }

  /**
   The projection and the declarative selection keep the same current blocks of a section, if
   and only if the section does not mix an unlabelled peer with one labelled by the default name.
   */
  lemma SelectionAgreesIff(blocks: seq<Block>, section: string)
    requires !Appended(section)
    ensures (forall i :: Selected(blocks, section, i) <==> Projected(blocks, section, i)) <==>
            !Collides(blocks, section)
  {
    hide Appended, KeyOf, Competes;
    if Collides(blocks, section) {
      DisagreesOnCollision(blocks, section);
    } else {
      forall i: nat
        ensures Selected(blocks, section, i) <==> Projected(blocks, section, i)
      {
        AgreesAt(blocks, section, i);
      }
    }
  }

  lemma AgreesAt(blocks: seq<Block>, section: string, i: nat)
    requires !Appended(section) && !Collides(blocks, section)
    ensures Selected(blocks, section, i) <==> Projected(blocks, section, i)
  {
    ProjectedMeansLast(blocks, section, i);
    hide Projected, KeyOf, Competes, Collides, Appended, ActiveIn;
    if i < |blocks| && ActiveIn(blocks, section, i) {
      forall j | i < j < |blocks| && ActiveIn(blocks, section, j)
        ensures KeyOf(blocks, i) == KeyOf(blocks, j) <==> Competes(blocks, section, i, j)
      {
        SameKey(blocks, section, i, j);
      }
    }
  }

  lemma DisagreesOnCollision(blocks: seq<Block>, section: string)
    requires !Appended(section) && Collides(blocks, section)
    ensures exists i :: Selected(blocks, section, i) && !Projected(blocks, section, i)
  {
    hide Appended, KeyOf, Competes, Projected, Parallel;
    var i :| 0 <= i < |blocks| && ActiveIn(blocks, section, i) && blocks[i].variant.None?;
    var j :| 0 <= j < |blocks| && ActiveIn(blocks, section, j) && blocks[j].variant == Some(DEFAULT);
    var a := LastOfVariant(blocks, section, i);
    var b := LastOfVariant(blocks, section, j);
    SameKey(blocks, section, a, b);
    ProjectedMeansLast(blocks, section, a);
    ProjectedMeansLast(blocks, section, b);
    hide Selected;
    assert a != b;
    assert !Projected(blocks, section, if a < b then a else b);
  }

  /** A record where they differ: an unlabelled statement, then one labelled with the default name. */
  lemma CollisionExample()
    ensures var blocks := [Block("operating_statement", false, None, false, false),
                           Block("operating_statement", false, Some(DEFAULT), false, false)];
            Selected(blocks, "operating_statement", 0) && !Projected(blocks, "operating_statement", 0)
  {
    var section := "operating_statement";
    var blocks := [Block(section, false, None, false, false), Block(section, false, Some(DEFAULT), false, false)];
    assert section in PARALLEL && !Extension(section);
    NotAppended();
    hide PARALLEL, APPEND, Appended;
    SameKey(blocks, section, 0, 1);
    ProjectedMeansLast(blocks, section, 0);
    assert ActiveIn(blocks, section, 0) && ActiveIn(blocks, section, 1);
  }

  lemma NotAppended()
    ensures !Appended("operating_statement")
  {
    assert |"operating_statement"| == 19;
    assert |"pipeline_log"| == 12 && |"custom_calculations"| == 19 && |"custom_scenarios"| == 16;
    assert "custom_calculations"[0] == 'c' && "operating_statement"[0] == 'o';
  }

  /** The list is the active blocks of the section among the first n, in order. */
  ghost predicate Listing(blocks: seq<Block>, section: string, active: seq<nat>, n: nat)
    requires n <= |blocks|
  {
    && (forall k :: 0 <= k < |active| ==> active[k] < n && ActiveIn(blocks, section, active[k]))
    && (forall k, l :: 0 <= k < l < |active| ==> active[k] < active[l])
    && (forall i: nat :: i < n && ActiveIn(blocks, section, i) ==> i in active)
  }

  /** The active blocks of a section, in order. */
  method ActiveBlocks(blocks: seq<Block>, section: string) returns (active: seq<nat>)
    ensures Listing(blocks, section, active, |blocks|)
  {
    active := [];
    for i := 0 to |blocks|
      invariant Listing(blocks, section, active, i)
    {
      if blocks[i].section == section && !blocks[i].history {
        active := active + [i];
      }
    }
  }

  /** The dictionary of peers: the last of the first n listed blocks for each variant. */
  ghost predicate Peers(blocks: seq<Block>, active: seq<nat>, n: nat, last: map<Option<string>, nat>)
    requires n <= |active| && forall k :: 0 <= k < |active| ==> active[k] < |blocks|
  {
    && (forall v :: v in last ==> exists k :: 0 <= k < n && active[k] == last[v])
    && (forall v :: v in last ==> last[v] < |blocks| && blocks[last[v]].variant == v)
    && (forall k :: 0 <= k < n ==> blocks[active[k]].variant in last && active[k] <= last[blocks[active[k]].variant])
  }

  lemma PeersSelected(blocks: seq<Block>, section: string, active: seq<nat>, last: map<Option<string>, nat>, i: nat)
    requires Parallel(blocks, section)
    requires Listing(blocks, section, active, |blocks|) && Peers(blocks, active, |active|, last)
    ensures Selected(blocks, section, i) <==> i < |blocks| && blocks[i].variant in last && last[blocks[i].variant] == i
  {
    hide Parallel;
    if i < |blocks| && ActiveIn(blocks, section, i) {
      var v := blocks[i].variant;
      assert i in active;
      var last' := last[v];
      assert last' in active && ActiveIn(blocks, section, last');
      forall j: nat | i < j < |blocks| && ActiveIn(blocks, section, j) && last[v] == i
        ensures !Competes(blocks, section, i, j)
      {
        assert j in active;
      }
    }
  }

  /** Blocks whose payload is external are shown on request only. */
  predicate Shown(blocks: seq<Block>, includeExternal: bool, i: nat) {
    i < |blocks| && (includeExternal || !blocks[i].external)
  }

  /** The selection of a section, without external blocks unless they are asked for. */
  method CurrentBlocks(blocks: seq<Block>, section: string, includeExternal: bool) returns (current: seq<nat>)
    ensures forall i: nat :: i in current <==> Selected(blocks, section, i) && Shown(blocks, includeExternal, i)
    ensures forall k, l :: 0 <= k < l < |current| ==> current[k] != current[l]
  {
    var all := LastBlocks(blocks, section);
    hide Selected, Shown;
    current := [];
    for n := 0 to |all|
      invariant forall i: nat :: i in current <==> i in all[..n] && Shown(blocks, includeExternal, i)
      invariant forall k, l :: 0 <= k < l < |current| ==> current[k] != current[l]
    {
      assert all[n] !in all[..n];
      if Shown(blocks, includeExternal, all[n]) {
        current := current + [all[n]];
      }
      assert all[..n + 1] == all[..n] + [all[n]];
    }
    assert all[..|all|] == all;
  }

  /** The blocks of a section: a dictionary by variant, or the last block. */
  method LastBlocks(blocks: seq<Block>, section: string) returns (current: seq<nat>)
    ensures forall i: nat :: i in current <==> Selected(blocks, section, i)
    ensures forall k, l :: 0 <= k < l < |current| ==> current[k] != current[l]
  {
    hide Parallel;
    var active := ActiveBlocks(blocks, section);
    if !Parallel(blocks, section) {
      current := if active == [] then [] else [active[|active| - 1]];
      LastActive(blocks, section, active);
      hide Selected, ActiveIn;
    } else {
      current := CurrentPeers(blocks, section, active);
    }
  }

  lemma LastActive(blocks: seq<Block>, section: string, active: seq<nat>)
    requires !Parallel(blocks, section)
    requires Listing(blocks, section, active, |blocks|)
    ensures forall i: nat :: Selected(blocks, section, i) <==> active != [] && i == active[|active| - 1]
  {
    hide Parallel;
    forall i: nat
      ensures Selected(blocks, section, i) <==> active != [] && i == active[|active| - 1]
    {
      if i < |blocks| && ActiveIn(blocks, section, i) {
        assert i in active;
        var k :| 0 <= k < |active| && active[k] == i;
        assert active[k] <= active[|active| - 1];
      }
    }
  }

  lemma ActiveBounds(blocks: seq<Block>, section: string, active: seq<nat>)
    requires Listing(blocks, section, active, |blocks|)
    ensures forall k :: 0 <= k < |active| ==> active[k] < |blocks|
    ensures forall k, l :: 0 <= k < l < |active| ==> active[k] < active[l]
  {
  }

  lemma PeersLabelled(blocks: seq<Block>, active: seq<nat>, n: nat, last: map<Option<string>, nat>)
    requires n <= |active| && forall k :: 0 <= k < |active| ==> active[k] < |blocks|
    requires Peers(blocks, active, n, last)
    ensures forall v :: v in last ==> last[v] < |blocks| && blocks[last[v]].variant == v
  {
  }

  lemma OneMorePeer(blocks: seq<Block>, active: seq<nat>, n: nat, last: map<Option<string>, nat>)
    requires n < |active| && forall k :: 0 <= k < |active| ==> active[k] < |blocks|
    requires forall k, l :: 0 <= k < l < |active| ==> active[k] < active[l]
    requires Peers(blocks, active, n, last)
    ensures Peers(blocks, active, n + 1, last[blocks[active[n]].variant := active[n]])
  {
    var v := blocks[active[n]].variant;
    var more := last[v := active[n]];
    forall u | u in more
      ensures exists k :: 0 <= k < n + 1 && active[k] == more[u]
    {
      if u == v {
        assert active[n] == more[u];
      } else {
        var k :| 0 <= k < n && active[k] == last[u];
        assert active[k] == more[u];
      }
    }
  }

  method CurrentPeers(blocks: seq<Block>, section: string, active: seq<nat>) returns (current: seq<nat>)
    requires Parallel(blocks, section)
    requires Listing(blocks, section, active, |blocks|)
    ensures forall i: nat :: i in current <==> Selected(blocks, section, i)
    ensures forall k, l :: 0 <= k < l < |current| ==> current[k] != current[l]
  {
    hide Parallel, ActiveIn, Selected;
    assert Peers(blocks, active, 0, map[]);
    ActiveBounds(blocks, section, active);
    hide Peers, Listing;
    var variants: seq<Option<string>>, last: map<Option<string>, nat> := [], map[];
    for n := 0 to |active|
      invariant forall v :: v in variants <==> v in last
      invariant forall k, l :: 0 <= k < l < |variants| ==> variants[k] != variants[l]
      invariant Peers(blocks, active, n, last)
    {
      var v := blocks[active[n]].variant;
      OneMorePeer(blocks, active, n, last);
      if v !in last {
        variants := variants + [v];
      }
      last := last[v := active[n]];
    }
    current := seq(|variants|, k requires 0 <= k < |variants| && variants[k] in last => last[variants[k]]);
    PeersLabelled(blocks, active, |active|, last);
    forall i: nat
      ensures i in current <==> Selected(blocks, section, i)
    {
      PeersSelected(blocks, section, active, last, i);
      InDictionary(blocks, variants, last, current, i);
    }
  }

  /** A dictionary's values, listed in key order. */
  lemma InDictionary(blocks: seq<Block>, variants: seq<Option<string>>, last: map<Option<string>, nat>,
      current: seq<nat>, i: nat)
    requires forall v :: v in variants <==> v in last
    requires forall v :: v in last ==> last[v] < |blocks| && blocks[last[v]].variant == v
    requires |current| == |variants|
             && forall k :: 0 <= k < |current| ==> variants[k] in last && current[k] == last[variants[k]]
    ensures i in current <==> i < |blocks| && blocks[i].variant in last && last[blocks[i].variant] == i
  {
    if i < |blocks| && blocks[i].variant in last && last[blocks[i].variant] == i {
      var k :| 0 <= k < |variants| && variants[k] == blocks[i].variant;
      assert current[k] == i;
    }
  }

  // ----- The order of extension variants -----

  lemma BeforeStrict(a: Option<string>, b: Option<string>)
    ensures a != b ==> Before(a, b) != Before(b, a)
    ensures !Before(a, a)
  {
    if a.Some? && b.Some? {
      UnitsTotal(Units(a.value), Units(b.value));
      if a != b && Before(a, b) && Before(b, a) {
        UnitsEqual(Units(a.value), Units(b.value));
        UnitsInjective(a.value, b.value);
      }
    }
    hide Units, UnitsAtMost;
  }

  lemma BeforeTransitive(a: Option<string>, b: Option<string>, c: Option<string>)
    requires Before(a, b) && Before(b, c)
    ensures Before(a, c)
  {
    BeforeStrict(a, b);
    if a.Some? {
      UnitsTransitive(Units(a.value), Units(b.value), Units(c.value));
    }
    hide Units, UnitsAtMost;
  }

  datatype Item = Item(variant: Option<string>, block: nat)

  predicate Sorted(items: seq<Item>) {
    forall k, l :: 0 <= k < l < |items| ==> Before(items[k].variant, items[l].variant)
  }

  /** The items are the entries of the map, in order. */
  ghost predicate ItemsOf(items: seq<Item>, peers: map<Option<string>, nat>) {
    && Sorted(items)
    && (forall k :: 0 <= k < |items| ==> items[k].variant in peers && peers[items[k].variant] == items[k].block)
    && (forall v :: v in peers ==> Item(v, peers[v]) in items)
  }

  /** A map has one sorted list of entries. */
  lemma {:induction false} ItemsUnique(a: seq<Item>, b: seq<Item>, peers: map<Option<string>, nat>)
    requires ItemsOf(a, peers) && ItemsOf(b, peers)
    ensures a == b
    decreases |a|
  {
    hide Before;
    NoItems(a, peers);
    NoItems(b, peers);
    if a != [] {
      SameFirst(a, b, peers);
      var v := a[0].variant;
      RestItems(a, peers);
      RestItems(b, peers);
      ItemsUnique(a[1..], b[1..], peers - {v});
      assert a == [a[0]] + a[1..] && b == [b[0]] + b[1..];
    }
  }

  lemma NoItems(items: seq<Item>, peers: map<Option<string>, nat>)
    requires ItemsOf(items, peers)
    ensures items == [] <==> peers == map[]
  {
    hide Before;
    if items != [] {
      assert items[0].variant in peers;
    }
  }

  lemma FirstIsLeast(items: seq<Item>, k: nat)
    requires Sorted(items) && k < |items|
    ensures k == 0 || Before(items[0].variant, items[k].variant)
  {
  }

  lemma SameFirst(a: seq<Item>, b: seq<Item>, peers: map<Option<string>, nat>)
    requires ItemsOf(a, peers) && ItemsOf(b, peers) && a != [] && b != []
    ensures a[0] == b[0]
  {
    hide Before;
    assert a[0].variant in peers && b[0].variant in peers;
    assert a[0] in b && b[0] in a;
    BeforeStrict(a[0].variant, b[0].variant);
    var k :| 0 <= k < |b| && b[k] == a[0];
    var l :| 0 <= l < |a| && a[l] == b[0];
    FirstIsLeast(b, k);
    FirstIsLeast(a, l);
  }

  lemma RestItems(a: seq<Item>, peers: map<Option<string>, nat>)
    requires ItemsOf(a, peers) && a != []
    ensures ItemsOf(a[1..], peers - {a[0].variant})
  {
    hide Before;
    forall k | 0 <= k < |a[1..]|
      ensures a[1..][k].variant in peers - {a[0].variant}
    {
      assert Before(a[0].variant, a[k + 1].variant);
      BeforeStrict(a[0].variant, a[k + 1].variant);
    }
    forall v | v in peers - {a[0].variant}
      ensures Item(v, peers[v]) in a[1..]
    {
      var k :| 0 <= k < |a| && a[k] == Item(v, peers[v]);
      assert a[1..][k - 1] == a[k];
    }
  }

  /** The item put in its place: what sorting does to a sorted list with one item more. */
  function Insert(item: Item, items: seq<Item>): seq<Item> {
    if items == [] then [item]
    else if Before(item.variant, items[0].variant) then [item] + items
    else [items[0]] + Insert(item, items[1..])
  }

  lemma {:induction false} InsertSorted(item: Item, items: seq<Item>)
    requires Sorted(items) && forall k :: 0 <= k < |items| ==> items[k].variant != item.variant
    ensures Sorted(Insert(item, items))
    ensures forall x :: x in Insert(item, items) <==> x == item || x in items
  {
    hide Before;
    if items != [] {
      var first := items[0];
      BeforeStrict(item.variant, first.variant);
      if Before(item.variant, first.variant) {
        forall l | 0 <= l < |items|
          ensures Before(item.variant, items[l].variant)
        {
          if l > 0 {
            BeforeTransitive(item.variant, first.variant, items[l].variant);
          }
        }
      } else {
        InsertSorted(item, items[1..]);
        var rest := Insert(item, items[1..]);
        forall l | 0 <= l < |rest|
          ensures Before(first.variant, rest[l].variant)
        {
          assert rest[l] in rest;
        }
        assert items == [first] + items[1..];
      }
    }
  }

  lemma InsertedItems(item: Item, items: seq<Item>, peers: map<Option<string>, nat>)
    requires ItemsOf(items, peers) && item.variant !in peers
    ensures ItemsOf(Insert(item, items), peers[item.variant := item.block])
  {
    hide Before, Insert, Sorted;
    InsertSorted(item, items);
    var more := Insert(item, items);
    forall k | 0 <= k < |more|
      ensures more[k].variant in peers[item.variant := item.block]
      ensures peers[item.variant := item.block][more[k].variant] == more[k].block
    {
      assert more[k] in more;
    }
  }

  // ----- The projected record -----

  datatype Slot = Single(block: nat) | Variants(peers: map<string, nat>)
  datatype Extended = One(block: nat) | Many(items: seq<Item>)

  /** The record both procedures build, blocks by physical position. */
  datatype Record = Record(
    sections: map<string, Slot>, extensions: map<string, Extended>,
    logs: map<string, seq<nat>>, superseded: map<string, seq<nat>>)

  /** The current blocks of a section, by identity. */
  function PeersIn(current: map<Key, nat>, section: string): map<Option<string>, nat> {
    map key | key in current && key.section == section :: key.identity := current[key]
  }

  lemma PeersAt(current: map<Key, nat>, section: string, v: Option<string>)
    ensures v in PeersIn(current, section) <==> Key(section, v) in current
    ensures Key(section, v) in current ==> PeersIn(current, section)[v] == current[Key(section, v)]
  {
    if v in PeersIn(current, section) {
      var key :| key in current && key.section == section && key.identity == v;
      assert key == Key(section, v);
    }
    if Key(section, v) in current {
      assert Key(section, v).identity in PeersIn(current, section);
    }
  }

  lemma PeersSet(current: map<Key, nat>, key: Key, i: nat, section: string)
    ensures PeersIn(current[key := i], section)
            == if section == key.section then PeersIn(current, section)[key.identity := i]
                else PeersIn(current, section)
  {
    var after := PeersIn(current[key := i], section);
    var expected := if section == key.section then PeersIn(current, section)[key.identity := i]
        else PeersIn(current, section);
    hide PeersIn;
    forall v
      ensures v in after <==> v in expected
      ensures v in after && v in expected ==> after[v] == expected[v]
    {
      PeersAt(current[key := i], section, v);
      PeersAt(current, section, v);
    }
  }

  /** An entry of the record holds exactly these peers. */
  ghost predicate SlotHolds(slot: Slot, parallel: bool, peers: map<Option<string>, nat>) {
    if parallel then
      && slot.Variants? && None !in peers
      && (forall v: string :: v in slot.peers <==> Some(v) in peers)
      && (forall v: string :: v in slot.peers ==> slot.peers[v] == peers[Some(v)])
    else peers.Keys == {None} && slot == Single(peers[None])
  }

  ghost predicate ExtendedHolds(e: Extended, parallel: bool, peers: map<Option<string>, nat>) {
    if parallel then e.Many? && ItemsOf(e.items, peers)
    else peers.Keys == {None} && e == One(peers[None])
  }

  /** The record's entry for a section shows the ledger's current blocks. */
  ghost predicate ShowsAt(blocks: seq<Block>, r: Record, current: map<Key, nat>, section: string) {
    var peers := PeersIn(current, section);
    var parallel := Parallel(blocks, section);
    && (section in r.sections <==> peers != map[] && !Extension(section))
    && (section in r.extensions <==> peers != map[] && Extension(section))
    && (section in r.sections ==> SlotHolds(r.sections[section], parallel, peers))
    && (section in r.extensions ==> ExtendedHolds(r.extensions[section], parallel, peers))
  }

  ghost predicate Shows(blocks: seq<Block>, r: Record, l: Ledger) {
    && r.logs == l.logs && r.superseded == l.history
    && forall section :: ShowsAt(blocks, r, l.current, section)
  }

  lemma SlotUnique(a: Slot, b: Slot, parallel: bool, peers: map<Option<string>, nat>)
    requires SlotHolds(a, parallel, peers) && SlotHolds(b, parallel, peers)
    ensures a == b
  {
    if parallel {
      assert a.peers == b.peers;
    }
  }

  /** Two records have the same entry for a section. */
  ghost predicate SameAt(a: Record, b: Record, section: string) {
    && (section in a.sections <==> section in b.sections)
    && (section in a.sections ==> a.sections[section] == b.sections[section])
    && (section in a.extensions <==> section in b.extensions)
    && (section in a.extensions ==> a.extensions[section] == b.extensions[section])
  }

  lemma SameEverywhere(a: Record, b: Record)
    requires (forall s :: SameAt(a, b, s)) && a.logs == b.logs && a.superseded == b.superseded
    ensures a == b
  {
    assert forall s :: s in a.sections || s in a.extensions || s in b.sections || s in b.extensions ==> SameAt(a, b, s);
    assert a.sections == b.sections;
    assert a.extensions == b.extensions;
  }

  /**
   A ledger is shown by one record only, so the Reader's projection and the semantic envelope
   build the same record: the same current blocks in the same places, the same history order.
   */
  lemma ProjectionsAgree(blocks: seq<Block>, a: Record, b: Record, l: Ledger)
    requires Shows(blocks, a, l) && Shows(blocks, b, l)
    ensures a == b
  {
    hide ShowsAt, SameAt;
    forall s
      ensures SameAt(a, b, s)
    {
      assert ShowsAt(blocks, a, l.current, s) && ShowsAt(blocks, b, l.current, s);
      SameEntry(blocks, a, b, l.current, s);
    }
    SameEverywhere(a, b);
  }

  lemma SameEntry(blocks: seq<Block>, a: Record, b: Record, current: map<Key, nat>, s: string)
    requires ShowsAt(blocks, a, current, s) && ShowsAt(blocks, b, current, s)
    ensures SameAt(a, b, s)
  {
    hide PeersIn, Parallel, Extension, SlotHolds, ItemsOf;
    var peers, parallel := PeersIn(current, s), Parallel(blocks, s);
    if s in a.sections {
      SlotUnique(a.sections[s], b.sections[s], parallel, peers);
    }
    if s in a.extensions && parallel {
      ItemsUnique(a.extensions[s].items, b.extensions[s].items, peers);
    }
  }

  lemma IdentityFits(blocks: seq<Block>, i: nat)
    requires i < |blocks|
    ensures !Parallel(blocks, blocks[i].section) ==> KeyOf(blocks, i).identity == None
    ensures Parallel(blocks, blocks[i].section) && !Extension(blocks[i].section) ==>
              KeyOf(blocks, i).identity == Some(if blocks[i].variant.Some? then blocks[i].variant.value else DEFAULT)
    ensures Parallel(blocks, blocks[i].section) && Extension(blocks[i].section) ==>
            KeyOf(blocks, i).identity == blocks[i].variant
  {
    hide Parallel, Extension;
  }

  lemma StillShows(blocks: seq<Block>, r: Record, after: Record, current: map<Key, nat>, current': map<Key, nat>,
      s: string)
    requires ShowsAt(blocks, r, current, s) && SameAt(r, after, s) && PeersIn(current', s) == PeersIn(current, s)
    ensures ShowsAt(blocks, after, current', s)
  {
    hide SlotHolds, ExtendedHolds, Parallel, Extension, PeersIn;
  }

  /** Changing one section's entry and peers shows the changed ledger. */
  lemma ShowsUpdated(blocks: seq<Block>, r: Record, after: Record, l: Ledger, i: nat)
    requires i < |blocks| && Shows(blocks, r, l)
    requires after.logs == Route(blocks, l, i).logs && after.superseded == Route(blocks, l, i).history
    requires Active(blocks, i)
    requires forall s :: s != blocks[i].section ==> SameAt(r, after, s)
    requires ShowsAt(blocks, after, l.current[KeyOf(blocks, i) := i], blocks[i].section)
    ensures Shows(blocks, after, Route(blocks, l, i))
  {
    var key := KeyOf(blocks, i);
    SectionOf(blocks, i);
    var more := l.current[key := i];
    assert Route(blocks, l, i).current == more;
    hide Route, KeyOf, ShowsAt, SameAt, PeersIn, Active;
    forall s
      ensures ShowsAt(blocks, after, more, s)
    {
      assert ShowsAt(blocks, r, l.current, s);
      if s != blocks[i].section {
        PeersSet(l.current, key, i, s);
        StillShows(blocks, r, after, l.current, more, s);
      }
    }
  }

  lemma ShowsSame(blocks: seq<Block>, r: Record, after: Record, l: Ledger, i: nat)
    requires i < |blocks| && Shows(blocks, r, l) && !Active(blocks, i)
    requires after.logs == Route(blocks, l, i).logs && after.superseded == Route(blocks, l, i).history
    requires after.sections == r.sections && after.extensions == r.extensions
    ensures Shows(blocks, after, Route(blocks, l, i))
  {
    hide KeyOf, PeersIn, Appended, ShowsAt, SameAt;
    forall s
      ensures ShowsAt(blocks, after, l.current, s)
    {
      assert ShowsAt(blocks, r, l.current, s);
      EntriesSame(r, after, s);
      StillShows(blocks, r, after, l.current, l.current, s);
    }
  }

  lemma EntriesSame(r: Record, after: Record, s: string)
    requires after.sections == r.sections && after.extensions == r.extensions
    ensures SameAt(r, after, s)
  {
  }

  // ----- The Reader's one pass -----

  /** The items without the one at an identity, and that one's block. */
  method TakeOut(items: seq<Item>, identity: Option<string>, ghost peers: map<Option<string>, nat>)
    returns (rest: seq<Item>, prior: Option<nat>)
    requires ItemsOf(items, peers)
    ensures prior == if identity in peers then Some(peers[identity]) else None
    ensures ItemsOf(rest, peers - {identity})
  {
    hide Before, Sorted;
    var k := 0;
    while k < |items| && items[k].variant != identity
      invariant k <= |items| && forall l :: 0 <= l < k ==> items[l].variant != identity
    {
      k := k + 1;
    }
    if k == |items| {
      rest, prior := items, None;
      NotListed(items, identity, peers);
    } else {
      rest, prior := Without(items, k), Some(items[k].block);
      TakenOut(items, k, peers);
    }
  }

  lemma ListedAt(items: seq<Item>, identity: Option<string>, peers: map<Option<string>, nat>) returns (k: nat)
    requires ItemsOf(items, peers) && identity in peers
    ensures k < |items| && items[k].variant == identity
  {
    hide Before;
    assert Item(identity, peers[identity]) in items;
    k :| k < |items| && items[k] == Item(identity, peers[identity]);
  }

  lemma NotListed(items: seq<Item>, identity: Option<string>, peers: map<Option<string>, nat>)
    requires ItemsOf(items, peers) && forall l :: 0 <= l < |items| ==> items[l].variant != identity
    ensures identity !in peers && peers - {identity} == peers
  {
    hide Before;
    if identity in peers {
      var k := ListedAt(items, identity, peers);
    }
  }

  function Without(items: seq<Item>, k: nat): seq<Item>
    requires k < |items|
  {
    items[..k] + items[k + 1..]
  }

  lemma WithoutAt(items: seq<Item>, k: nat, l: nat)
    requires k < |items| && l < |items| - 1
    ensures l < |Without(items, k)| && Without(items, k)[l] == items[if l < k then l else l + 1]
  {
  }

  lemma StaysSorted(items: seq<Item>, k: nat)
    requires Sorted(items) && k < |items|
    ensures Sorted(Without(items, k))
  {
    hide Before, Without;
    forall m, n | 0 <= m < n < |Without(items, k)|
      ensures Before(Without(items, k)[m].variant, Without(items, k)[n].variant)
    {
      WithoutSize(items, k);
      WithoutAt(items, k, m);
      WithoutAt(items, k, n);
    }
  }

  lemma WithoutSize(items: seq<Item>, k: nat)
    requires k < |items|
    ensures |Without(items, k)| == |items| - 1
  {
  }

  lemma SortedApart(items: seq<Item>, k: nat, l: nat)
    requires Sorted(items) && k < |items| && l < |items| && k != l
    ensures items[k].variant != items[l].variant
  {
    hide Before;
    assert Before(items[if l < k then l else k].variant, items[if l < k then k else l].variant);
    BeforeStrict(items[l].variant, items[k].variant);
  }

  lemma TakenOut(items: seq<Item>, k: nat, peers: map<Option<string>, nat>)
    requires ItemsOf(items, peers) && k < |items|
    ensures ItemsOf(Without(items, k), peers - {items[k].variant})
  {
    StaysSorted(items, k);
    WithoutSize(items, k);
    hide Sorted, Without;
    var rest := Without(items, k);
    forall l | 0 <= l < |rest|
      ensures rest[l].variant in peers - {items[k].variant} && peers[rest[l].variant] == rest[l].block
    {
      WithoutAt(items, k, l);
      SortedApart(items, k, if l < k then l else l + 1);
    }
    forall v | v in peers - {items[k].variant}
      ensures Item(v, peers[v]) in rest
    {
      var l :| 0 <= l < |items| && items[l] == Item(v, peers[v]);
      WithoutAt(items, k, if l < k then l else l - 1);
    }
  }

  /** One active extension block: its new entry, and the block it replaces. */
  method PlaceExtension(parallel: bool, entry: Option<Extended>, identity: Option<string>, i: nat,
      ghost peers: map<Option<string>, nat>)
    returns (placed: Extended, replaced: Option<nat>)
    requires entry.Some? <==> peers != map[]
    requires entry.Some? ==> ExtendedHolds(entry.value, parallel, peers)
    requires !parallel ==> identity == None
    ensures replaced == if identity in peers then Some(peers[identity]) else None
    ensures ExtendedHolds(placed, parallel, peers[identity := i])
  {
    if parallel {
      hide ItemsOf;
      var items := if entry.Some? then entry.value.items else [];
      NoneYet();
      var rest, prior := TakeOut(items, identity, peers);
      replaced := prior;
      InsertedItems(Item(identity, i), rest, peers - {identity});
      assert (peers - {identity})[identity := i] == peers[identity := i];
      placed := Many(Insert(Item(identity, i), rest));
    } else {
      replaced := if entry.Some? then Some(entry.value.block) else None;
      placed := One(i);
    }
  }

  lemma NoneYet()
    ensures ItemsOf([], map[])
  {
  }

  /** One active block of another section. */
  method PlaceSection(parallel: bool, entry: Option<Slot>, identity: Option<string>, i: nat,
      ghost peers: map<Option<string>, nat>)
    returns (placed: Slot, replaced: Option<nat>)
    requires entry.Some? <==> peers != map[]
    requires entry.Some? ==> SlotHolds(entry.value, parallel, peers)
    requires parallel <==> identity.Some?
    ensures replaced == if identity in peers then Some(peers[identity]) else None
    ensures SlotHolds(placed, parallel, peers[identity := i])
  {
    if parallel {
      var variants := if entry.Some? then entry.value.peers else map[];
      replaced := if identity.value in variants then Some(variants[identity.value]) else None;
      placed := Variants(variants[identity.value := i]);
    } else {
      replaced := if entry.Some? then Some(entry.value.block) else None;
      placed := Single(i);
    }
  }

  /** The Reader's projection, block by block. */
  method ReaderProjection(blocks: seq<Block>) returns (r: Record)
    ensures Shows(blocks, r, Routed(blocks, |blocks|))
  {
    hide Parallel, Extension, Appended, Shows, Route, ShowsAt;
    r := Record(map[], map[], map[], map[]);
    NothingShown(blocks, r);
    for i := 0 to |blocks|
      invariant Shows(blocks, r, Routed(blocks, i))
    {
      var b := blocks[i];
      ghost var l := Routed(blocks, i);
      ghost var before := r;
      if Appended(b.section) {
        r := r.(logs := Added(r.logs, b.section, i));
        LoggedShown(blocks, before, r, l, i);
      } else if b.history {
        r := r.(superseded := Added(r.superseded, b.section, i));
        HistoryShown(blocks, before, r, l, i);
      } else {
        r := PlaceActive(blocks, r, i, l);
      }
    }
  }

  lemma NothingShown(blocks: seq<Block>, r: Record)
    requires r == Record(map[], map[], map[], map[])
    ensures Shows(blocks, r, Routed(blocks, 0))
  {
    hide Parallel;
  }

  lemma LoggedShown(blocks: seq<Block>, r: Record, after: Record, l: Ledger, i: nat)
    requires i < |blocks| && Shows(blocks, r, l) && Appended(blocks[i].section)
    requires after == r.(logs := Added(r.logs, blocks[i].section, i))
    ensures Shows(blocks, after, Route(blocks, l, i))
  {
    ShowsSame(blocks, r, after, l, i);
  }

  lemma HistoryShown(blocks: seq<Block>, r: Record, after: Record, l: Ledger, i: nat)
    requires i < |blocks| && Shows(blocks, r, l) && !Appended(blocks[i].section) && blocks[i].history
    requires after == r.(superseded := Added(r.superseded, blocks[i].section, i))
    ensures Shows(blocks, after, Route(blocks, l, i))
  {
    ShowsSame(blocks, r, after, l, i);
  }

  /** The record after an active block took its place: only its section's entry and history changed. */
  ghost predicate Placed(blocks: seq<Block>, r: Record, after: Record, l: Ledger, i: nat)
    requires i < |blocks|
  {
    var section := blocks[i].section;
    var identity := KeyOf(blocks, i).identity;
    var peers, parallel := PeersIn(l.current, section), Parallel(blocks, section);
    && after.logs == r.logs
    && after.superseded == (if identity in peers then Added(r.superseded, section, peers[identity]) else r.superseded)
    && (forall s :: s != section ==> SameAt(r, after, s))
    && if Extension(section) then
         section in after.extensions && section !in after.sections
         && ExtendedHolds(after.extensions[section], parallel, peers[identity := i])
       else
         section in after.sections && section !in after.extensions
         && SlotHolds(after.sections[section], parallel, peers[identity := i])
  }

  method PlaceActive(blocks: seq<Block>, r: Record, i: nat, ghost l: Ledger) returns (after: Record)
    requires i < |blocks| && Active(blocks, i) && Shows(blocks, r, l)
    ensures Shows(blocks, after, Route(blocks, l, i))
  {
    hide Active, Shows, Placed, Route;
    if Extension(blocks[i].section) {
      after := PlaceActiveExtension(blocks, r, i, l);
    } else {
      after := PlaceActiveSection(blocks, r, i, l);
    }
    PlacedShown(blocks, r, after, l, i);
  }

  /** An active block takes its place; the block it replaces goes to history. */
  method PlaceActiveExtension(blocks: seq<Block>, r: Record, i: nat, ghost l: Ledger) returns (after: Record)
    requires i < |blocks| && Active(blocks, i) && Shows(blocks, r, l) && Extension(blocks[i].section)
    ensures Placed(blocks, r, after, l, i)
  {
    hide Parallel, Extension, Appended, ShowsAt, Shows, SlotHolds, ExtendedHolds, KeyOf, PeersIn, Added;
    var b := blocks[i];
    var parallel := Parallel(blocks, b.section);
    EntryShown(blocks, r, l, b.section);
    IdentityFits(blocks, i);
    var placed, replaced :=
        PlaceExtension(parallel, if b.section in r.extensions then Some(r.extensions[b.section]) else None,
                                           if parallel then b.variant else None, i, PeersIn(l.current, b.section));
    after := r.(extensions := r.extensions[b.section := placed]);
    if replaced.Some? {
      after := after.(superseded := Added(after.superseded, b.section, replaced.value));
    }
  }

  method PlaceActiveSection(blocks: seq<Block>, r: Record, i: nat, ghost l: Ledger) returns (after: Record)
    requires i < |blocks| && Active(blocks, i) && Shows(blocks, r, l) && !Extension(blocks[i].section)
    ensures Placed(blocks, r, after, l, i)
  {
    hide Parallel, Extension, Appended, ShowsAt, Shows, SlotHolds, ExtendedHolds, KeyOf, PeersIn, Added;
    var b := blocks[i];
    var parallel := Parallel(blocks, b.section);
    EntryShown(blocks, r, l, b.section);
    IdentityFits(blocks, i);
    var identity := if !parallel then None else if b.variant.Some? then b.variant else Some(DEFAULT);
    var placed, replaced :=
        PlaceSection(parallel, if b.section in r.sections then Some(r.sections[b.section]) else None,
                                         identity, i, PeersIn(l.current, b.section));
    after := r.(sections := r.sections[b.section := placed]);
    if replaced.Some? {
      after := after.(superseded := Added(after.superseded, b.section, replaced.value));
    }
  }

  lemma EntryShown(blocks: seq<Block>, r: Record, l: Ledger, section: string)
    requires Shows(blocks, r, l)
    ensures ShowsAt(blocks, r, l.current, section)
    ensures var peers, parallel := PeersIn(l.current, section), Parallel(blocks, section);
            && (section in r.sections <==> peers != map[] && !Extension(section))
            && (section in r.extensions <==> peers != map[] && Extension(section))
            && (section in r.sections ==> SlotHolds(r.sections[section], parallel, peers))
            && (section in r.extensions ==> ExtendedHolds(r.extensions[section], parallel, peers))
  {
    assert ShowsAt(blocks, r, l.current, section);
  }

  lemma PlacedShown(blocks: seq<Block>, r: Record, after: Record, l: Ledger, i: nat)
    requires i < |blocks| && Active(blocks, i) && Shows(blocks, r, l) && Placed(blocks, r, after, l, i)
    ensures Shows(blocks, after, Route(blocks, l, i))
  {
    hide Parallel, Extension, SlotHolds, ExtendedHolds, KeyOf, PeersIn, SameAt;
    var b, key := blocks[i], KeyOf(blocks, i);
    SectionOf(blocks, i);
    PeersAt(l.current, b.section, key.identity);
    PeersSet(l.current, key, i, b.section);
    ReplacedListed(blocks, r, after, l, i);
    NonemptyPeers(PeersIn(l.current, b.section), key.identity, i);
    ShowsUpdated(blocks, r, after, l, i);
  }

  lemma NonemptyPeers(peers: map<Option<string>, nat>, identity: Option<string>, i: nat)
    ensures peers[identity := i] != map[]
  {
    assert identity in peers[identity := i];
  }

  lemma ReplacedListed(blocks: seq<Block>, r: Record, after: Record, l: Ledger, i: nat)
    requires i < |blocks| && Active(blocks, i) && Shows(blocks, r, l) && Placed(blocks, r, after, l, i)
    ensures after.logs == Route(blocks, l, i).logs && after.superseded == Route(blocks, l, i).history
  {
    hide Parallel, Extension, SlotHolds, ExtendedHolds, KeyOf, PeersIn, SameAt, ShowsAt, Added;
    var b, key := blocks[i], KeyOf(blocks, i);
    SectionOf(blocks, i);
    assert key == Key(b.section, key.identity);
    PeersAt(l.current, b.section, key.identity);
  }

  // ----- The semantic envelope -----

  /** The peers chosen so far, by section and identity. */
  ghost predicate Chosen(selected: map<string, map<Option<string>, nat>>, current: map<Key, nat>) {
    forall s :: ChosenAt(selected, current, s)
  }

  ghost predicate ChosenAt(selected: map<string, map<Option<string>, nat>>, current: map<Key, nat>, s: string) {
    && (s in selected <==> PeersIn(current, s) != map[])
    && (s in selected ==> selected[s] == PeersIn(current, s))
  }

  /** The identity a physical block takes, as the envelope computes it. */
  method EnvelopeIdentity(blocks: seq<Block>, i: nat) returns (key: Option<string>)
    requires i < |blocks|
    ensures key == KeyOf(blocks, i).identity
  {
    hide Parallel, Extension;
    var b := blocks[i];
    key := if Parallel(blocks, b.section) then b.variant else None;
    if !Extension(b.section) && Parallel(blocks, b.section) {
      key := if key.Some? then key else Some(DEFAULT);
    }
  }

  lemma ChosenMore(selected: map<string, map<Option<string>, nat>>, current: map<Key, nat>, key: Key, i: nat)
    requires Chosen(selected, current)
    ensures var peers := if key.section in selected then selected[key.section] else map[];
            && Chosen(selected[key.section := peers[key.identity := i]], current[key := i])
            && (key.identity in peers <==> key in current)
            && (key in current ==> peers[key.identity] == current[key])
  {
    var peers := if key.section in selected then selected[key.section] else map[];
    var after, more := selected[key.section := peers[key.identity := i]], current[key := i];
    assert ChosenAt(selected, current, key.section);
    PeersAt(current, key.section, key.identity);
    hide PeersIn;
    forall s
      ensures ChosenAt(after, more, s)
    {
      assert ChosenAt(selected, current, s);
      PeersSet(current, key, i, s);
      NonemptyPeers(peers, key.identity, i);
    }
  }

  /** First pass of the envelope: choose the current block of every identity. */
  method ChooseBlocks(blocks: seq<Block>)
    returns (selected: map<string, map<Option<string>, nat>>, histories: map<string, seq<nat>>,
        logs: map<string, seq<nat>>)
    ensures var l := Routed(blocks, |blocks|);
            Chosen(selected, l.current) && histories == l.history && logs == l.logs
  {
    hide Parallel, Extension, Appended, Chosen, KeyOf, Added;
    selected, histories, logs := map[], map[], map[];
    NothingChosen();
    for i := 0 to |blocks|
      invariant var l := Routed(blocks, i);
                Chosen(selected, l.current) && histories == l.history && logs == l.logs
    {
      var section := blocks[i].section;
      if Appended(section) {
        logs := Added(logs, section, i);
      } else if blocks[i].history {
        histories := Added(histories, section, i);
      } else {
        var identity := EnvelopeIdentity(blocks, i);
        SectionOf(blocks, i);
        assert KeyOf(blocks, i) == Key(section, identity);
        ChosenMore(selected, Routed(blocks, i).current, Key(section, identity), i);
        var peers := if section in selected then selected[section] else map[];
        if identity in peers {
          histories := Added(histories, section, peers[identity]);
        }
        selected := selected[section := peers[identity := i]];
      }
    }
  }

  lemma NothingChosen()
    ensures Chosen(map[], map[])
  {
  }

  /** The peers of a section sorted by identity. */
  method SortPeers(peers: map<Option<string>, nat>) returns (items: seq<Item>)
    ensures ItemsOf(items, peers)
  {
    hide ItemsOf;
    items := [];
    var keys := peers.Keys;
    NoneYet();
    var done: map<Option<string>, nat> := map[];
    while keys != {}
      invariant keys <= peers.Keys && ItemsOf(items, done)
      invariant done == map v | v in peers && v !in keys :: peers[v]
      decreases |keys|
    {
      var v :| v in keys;
      keys := keys - {v};
      InsertedItems(Item(v, peers[v]), items, done);
      items := Insert(Item(v, peers[v]), items);
      done := done[v := peers[v]];
    }
    assert done == peers;
  }

  /** The named peers of a parallel section. */
  function Named(peers: map<Option<string>, nat>): map<string, nat> {
    map v | v in peers && v.Some? :: v.value := peers[v]
  }

  lemma NamedAt(peers: map<Option<string>, nat>, v: string)
    ensures v in Named(peers) <==> Some(v) in peers
    ensures v in Named(peers) ==> Named(peers)[v] == peers[Some(v)]
  {
    if Some(v) in peers {
      assert Some(v).value in Named(peers);
    }
    if v in Named(peers) {
      var o :| o in peers && o.Some? && o.value == v;
      assert o == Some(v);
    }
  }

  /** Every identity of the ledger is one a block of its section takes. */
  lemma {:induction false} IdentitiesFit(blocks: seq<Block>, n: nat, section: string, v: Option<string>)
    requires n <= |blocks| && v in PeersIn(Routed(blocks, n).current, section)
    ensures !Parallel(blocks, section) ==> v == None
    ensures Parallel(blocks, section) && !Extension(section) ==> v.Some?
  {
    var key := Key(section, v);
    PeersAt(Routed(blocks, n).current, section, v);
    CurrentIsLast(blocks, n, key);
    LastIsThere(blocks, key, n);
    var i := LastAt(blocks, key, n).value;
    SectionOf(blocks, i);
    hide PeersIn, Routed, LastAt, KeyOf, Parallel, Extension;
    IdentityFits(blocks, i);
  }

  lemma NamedHolds(peers: map<Option<string>, nat>)
    requires None !in peers
    ensures SlotHolds(Variants(Named(peers)), true, peers)
  {
    hide Named;
    forall v: string
      ensures v in Named(peers) <==> Some(v) in peers
      ensures v in Named(peers) ==> Named(peers)[v] == peers[Some(v)]
    {
      NamedAt(peers, v);
    }
  }

  lemma UnnamedHolds(peers: map<Option<string>, nat>)
    requires peers != map[] && forall v :: v in peers ==> v == None
    ensures peers.Keys == {None} && SlotHolds(Single(peers[None]), false, peers)
  {
    var v :| v in peers;
  }

  /** The peers of a section that keeps variants are labelled; those of the others are not. */
  lemma PeersFit(blocks: seq<Block>, section: string, peers: map<Option<string>, nat>)
    requires peers == PeersIn(Routed(blocks, |blocks|).current, section)
    ensures !Parallel(blocks, section) ==> forall v :: v in peers ==> v == None
    ensures Parallel(blocks, section) && !Extension(section) ==> None !in peers
  {
    hide *;
    forall v | v in peers
      ensures !Parallel(blocks, section) ==> v == None
      ensures Parallel(blocks, section) && !Extension(section) ==> v.Some?
    {
      IdentitiesFit(blocks, |blocks|, section, v);
    }
  }

  /** Second pass of the envelope: one entry a section. */
  method SemanticEnvelope(blocks: seq<Block>) returns (r: Record)
    ensures Shows(blocks, r, Routed(blocks, |blocks|))
  {
    hide Parallel, Extension, Routed, PeersIn, Named, ShowsAt, Chosen;
    var selected, histories, logs := ChooseBlocks(blocks);
    ghost var current := Routed(blocks, |blocks|).current;
    r := Record(map[], map[], logs, histories);
    var keys := selected.Keys;
    while keys != {}
      invariant keys <= selected.Keys && r.logs == logs && r.superseded == histories
      invariant forall s :: s in r.sections || s in r.extensions ==> s in selected && s !in keys
      invariant forall s :: s in selected && s !in keys ==> ShowsAt(blocks, r, current, s)
      decreases |keys|
    {
      var section :| section in keys;
      keys := keys - {section};
      var before := r;
      r := EnvelopeEntry(blocks, r, section, selected[section], current, selected);
      forall s | s in selected && s !in keys
        ensures ShowsAt(blocks, r, current, s)
      {
        if s != section {
          EntriesKept(blocks, before, r, current, s);
        }
      }
    }
    AllShown(blocks, r, current, selected);
  }

  lemma EntriesKept(blocks: seq<Block>, r: Record, after: Record, current: map<Key, nat>, s: string)
    requires ShowsAt(blocks, r, current, s) && SameAt(r, after, s)
    ensures ShowsAt(blocks, after, current, s)
  {
    StillShows(blocks, r, after, current, current, s);
  }

  lemma AllShown(blocks: seq<Block>, r: Record, current: map<Key, nat>, selected: map<string, map<Option<string>, nat>>)
    requires Chosen(selected, current) && forall s :: s in r.sections || s in r.extensions ==> s in selected
    requires forall s :: s in selected ==> ShowsAt(blocks, r, current, s)
    ensures forall s :: ShowsAt(blocks, r, current, s)
  {
    hide Parallel, Extension, PeersIn, SlotHolds, ExtendedHolds;
    forall s
      ensures ShowsAt(blocks, r, current, s)
    {
      assert ChosenAt(selected, current, s);
    }
  }

  method EnvelopeEntry(blocks: seq<Block>, r: Record, section: string, peers: map<Option<string>, nat>,
                       ghost current: map<Key, nat>, ghost selected: map<string, map<Option<string>, nat>>)
    returns (after: Record)
    requires current == Routed(blocks, |blocks|).current && Chosen(selected, current)
    requires section in selected && selected[section] == peers && section !in r.sections && section !in r.extensions
    ensures ShowsAt(blocks, after, current, section) && after.logs == r.logs && after.superseded == r.superseded
    ensures after.sections.Keys + after.extensions.Keys == r.sections.Keys + r.extensions.Keys + {section}
    ensures forall s :: s != section ==> SameAt(r, after, s)
  {
    hide Parallel, Extension, Routed, PeersIn, Named, SlotHolds, ItemsOf;
    assert ChosenAt(selected, current, section);
    PeersFit(blocks, section, peers);
    if !Parallel(blocks, section) {
      UnnamedHolds(peers);
    }
    if Extension(section) {
      var entry;
      if Parallel(blocks, section) {
        var items := SortPeers(peers);
        entry := Many(items);
      } else {
        entry := One(peers[None]);
      }
      after := r.(extensions := r.extensions[section := entry]);
    } else {
      var slot;
      if Parallel(blocks, section) {
        NamedHolds(peers);
        slot := Variants(Named(peers));
      } else {
        slot := Single(peers[None]);
      }
      after := r.(sections := r.sections[section := slot]);
    }
  }

  // ----- What a selection does not depend on -----

  ghost predicate SomeRole(blocks: seq<Block>, section: string) {
    exists k :: 0 <= k < |blocks| && blocks[k].section == section && !blocks[k].history && blocks[k].role
  }

  ghost predicate SomeVariant(blocks: seq<Block>, section: string) {
    exists k :: 0 <= k < |blocks| && blocks[k].section == section && !blocks[k].history && blocks[k].variant.Some?
  }

  /**
   A record shows a section as variants exactly when it is one of seven, or when some current block
   of it has a role and some current block of it has a label.
   */
  lemma VariantsShown(blocks: seq<Block>, r: Record, section: string)
    requires Shows(blocks, r, Routed(blocks, |blocks|))
    ensures var variants := || section in ["operating_statement", "stress_tests", "due_diligence", "lease_up_schedule",
                                           "cash_flow_series", "distribution_waterfall", "reserve_accounts"]
                            || (SomeRole(blocks, section) && SomeVariant(blocks, section));
            && (section in r.sections ==> (r.sections[section].Variants? <==> variants))
            && (section in r.extensions ==> (r.extensions[section].Many? <==> variants))
  {
    assert ShowsAt(blocks, r, Routed(blocks, |blocks|).current, section);
    RegisteredSections(blocks, section);
    hide Parallel, Routed, Shows, PeersIn, SomeRole, SomeVariant;
  }

  lemma RegisteredSections(blocks: seq<Block>, section: string)
    ensures Parallel(blocks, section) <==>
            || section in ["operating_statement", "stress_tests", "due_diligence", "lease_up_schedule",
                           "cash_flow_series", "distribution_waterfall", "reserve_accounts"]
            || (SomeRole(blocks, section) && SomeVariant(blocks, section))
  {
  }

  /** The ledgers hold the same blocks of the section. */
  ghost predicate SameFor(section: string, l: Ledger, m: Ledger) {
    && (forall v: Option<string> :: Key(section, v) in l.current <==> Key(section, v) in m.current)
    && (forall v: Option<string> ::
          Key(section, v) in l.current ==> l.current[Key(section, v)] == m.current[Key(section, v)])
    && Listed(l.history, section) == Listed(m.history, section)
    && Listed(l.logs, section) == Listed(m.logs, section)
  }

  lemma ParallelOfSection(blocks: seq<Block>, i: nat, b: Block, section: string)
    requires i < |blocks| && blocks[i].section != section && b.section != section
    ensures Parallel(blocks[i := b], section) == Parallel(blocks, section)
  {
    var changed := blocks[i := b];
    if k :| 0 <= k < |blocks| && blocks[k].section == section && !blocks[k].history && blocks[k].role {
      assert changed[k] == blocks[k];
    }
    if k :| 0 <= k < |blocks| && blocks[k].section == section && !blocks[k].history && blocks[k].variant.Some? {
      assert changed[k] == blocks[k];
    }
    if k :| 0 <= k < |changed| && changed[k].section == section && !changed[k].history && changed[k].role {
      assert changed[k] == blocks[k];
    }
    if k :| 0 <= k < |changed| && changed[k].section == section && !changed[k].history && changed[k].variant.Some? {
      assert changed[k] == blocks[k];
    }
  }

  /** A block of another section changes nothing for the section. */
  lemma StepAway(blocks: seq<Block>, l: Ledger, i: nat, section: string)
    requires i < |blocks| && blocks[i].section != section
    ensures SameFor(section, l, Route(blocks, l, i))
  {
    hide Identity, Appended;
  }

  lemma SameForTrans(section: string, l: Ledger, m: Ledger, n: Ledger)
    requires SameFor(section, l, m) && SameFor(section, m, n)
    ensures SameFor(section, l, n)
  {
    hide Listed;
  }

  lemma SameForBack(section: string, l: Ledger, m: Ledger)
    requires SameFor(section, l, m)
    ensures SameFor(section, m, l)
  {
    hide Listed;
  }

  /** One block of the section, added to two ledgers that agree on it. */
  lemma StepHere(blocks: seq<Block>, changed: seq<Block>, l: Ledger, m: Ledger, i: nat, section: string)
    requires i < |blocks| && i < |changed| && SameFor(section, l, m)
    requires blocks[i] == changed[i] && blocks[i].section == section && KeyOf(blocks, i) == KeyOf(changed, i)
    ensures SameFor(section, Route(blocks, l, i), Route(changed, m, i))
  {
    hide Identity, Appended;
    var b, key := blocks[i], KeyOf(blocks, i);
    assert key.section == section && key == Key(section, key.identity);
    if Appended(b.section) {
      AddedList(l.logs, section, i, section);
      AddedList(m.logs, section, i, section);
    } else if b.history {
      AddedList(l.history, section, i, section);
      AddedList(m.history, section, i, section);
    } else if key in l.current {
      AddedList(l.history, section, l.current[key], section);
      AddedList(m.history, section, m.current[key], section);
    }
    hide Added, Listed;
  }

  /** One step of two ledgers that agree on the section, by blocks that agree on it. */
  lemma SameStep(blocks: seq<Block>, changed: seq<Block>, l: Ledger, m: Ledger, i: nat, section: string)
    requires i < |blocks| && i < |changed| && SameFor(section, l, m)
    requires Parallel(changed, section) == Parallel(blocks, section)
    requires (blocks[i].section == section <==> changed[i].section == section)
    requires blocks[i].section == section ==> blocks[i] == changed[i]
    ensures SameFor(section, Route(blocks, l, i), Route(changed, m, i))
  {
    hide Parallel, SameFor, Route, Extension;
    if blocks[i].section == section {
      StepHere(blocks, changed, l, m, i, section);
    } else {
      StepAway(blocks, l, i, section);
      StepAway(changed, m, i, section);
      SameForBack(section, l, Route(blocks, l, i));
      SameForTrans(section, Route(blocks, l, i), l, m);
      SameForTrans(section, Route(blocks, l, i), m, Route(changed, m, i));
    }
  }

  lemma {:induction false} RoutedSame(blocks: seq<Block>, i: nat, b: Block, section: string, n: nat)
    requires i < |blocks| && blocks[i].section != section && b.section != section && n <= |blocks|
    ensures SameFor(section, Routed(blocks, n), Routed(blocks[i := b], n))
    decreases n
  {
    hide Route, Parallel;
    if n > 0 {
      RoutedSame(blocks, i, b, section, n - 1);
      ParallelOfSection(blocks, i, b, section);
      SameStep(blocks, blocks[i := b], Routed(blocks, n - 1), Routed(blocks[i := b], n - 1), n - 1, section);
    }
  }

  /** Replacing a block of other sections by another such block changes nothing for a section. */
  lemma OtherSectionsInert(blocks: seq<Block>, i: nat, b: Block, section: string, j: nat)
    requires i < |blocks| && blocks[i].section != section && b.section != section
    ensures SameFor(section, Routed(blocks, |blocks|), Routed(blocks[i := b], |blocks|))
    ensures Selected(blocks[i := b], section, j) <==> Selected(blocks, section, j)
  {
    RoutedSame(blocks, i, b, section, |blocks|);
    ParallelOfSection(blocks, i, b, section);
    hide Parallel, SameFor, Routed;
    var changed := blocks[i := b];
    assert forall k :: 0 <= k < |blocks| ==> ActiveIn(changed, section, k) == ActiveIn(blocks, section, k);
    assert forall k :: 0 <= k < |blocks| && ActiveIn(blocks, section, k) ==> changed[k] == blocks[k];
  }

  lemma ParallelWithHistory(blocks: seq<Block>, h: Block, section: string)
    requires h.history
    ensures Parallel(blocks + [h], section) == Parallel(blocks, section)
  {
    var more := blocks + [h];
    if k :| 0 <= k < |blocks| && blocks[k].section == section && !blocks[k].history && blocks[k].role {
      assert more[k] == blocks[k];
    }
    if k :| 0 <= k < |blocks| && blocks[k].section == section && !blocks[k].history && blocks[k].variant.Some? {
      assert more[k] == blocks[k];
    }
  }

  lemma {:induction false} RoutedWithHistory(blocks: seq<Block>, h: Block, n: nat)
    requires h.history && n <= |blocks|
    ensures Routed(blocks + [h], n) == Routed(blocks, n)
    decreases n
  {
    if n > 0 {
      RoutedWithHistory(blocks, h, n - 1);
      ParallelWithHistory(blocks, h, blocks[n - 1].section);
      assert (blocks + [h])[n - 1] == blocks[n - 1];
      assert KeyOf(blocks + [h], n - 1) == KeyOf(blocks, n - 1);
    }
    hide Parallel, Appended, Extension;
  }

  /** A superseded block at the end changes no current block; it is only listed, last, in its history or log. */
  lemma HistoryInert(blocks: seq<Block>, h: Block)
    requires h.history
    ensures var l, m := Routed(blocks, |blocks|), Routed(blocks + [h], |blocks| + 1);
            && m.current == l.current
            && (h.section in ["pipeline_log", "custom_calculations", "custom_scenarios"] ==>
                  m.history == l.history && Listed(m.logs, h.section) == Listed(l.logs, h.section) + [|blocks|])
            && (h.section !in ["pipeline_log", "custom_calculations", "custom_scenarios"] ==>
                  m.logs == l.logs && Listed(m.history, h.section) == Listed(l.history, h.section) + [|blocks|])
  {
    RoutedWithHistory(blocks, h, |blocks|);
    assert (blocks + [h])[|blocks|] == h;
    hide Parallel, Extension;
  }

  /**
   Where a record shows a current block: extension sections, named x_, apart from the others; a
   parallel section by label, an unlabelled block of a builtin one under the label `default`.
   */
  lemma ShownUnder(blocks: seq<Block>, r: Record, i: nat)
    requires Shows(blocks, r, Routed(blocks, |blocks|)) && i < |blocks|
    requires Holds(Routed(blocks, |blocks|), KeyOf(blocks, i), i)
    ensures var b := blocks[i];
            if |b.section| >= 2 && b.section[..2] == "x_" then
              && b.section !in r.sections && b.section in r.extensions
              && (if Parallel(blocks, b.section) then
                    r.extensions[b.section].Many? && Item(b.variant, i) in r.extensions[b.section].items
                  else r.extensions[b.section] == One(i))
            else
              && b.section !in r.extensions && b.section in r.sections
              && (if Parallel(blocks, b.section) then
                    var name := if b.variant.Some? then b.variant.value else "default";
                    r.sections[b.section].Variants? && name in r.sections[b.section].peers
                    && r.sections[b.section].peers[name] == i
                  else r.sections[b.section] == Single(i))
  {
    var b, current := blocks[i], Routed(blocks, |blocks|).current;
    var peers := PeersIn(current, b.section);
    PrefixOf(b.section);
    PeersAt(current, b.section, KeyOf(blocks, i).identity);
    assert ShowsAt(blocks, r, current, b.section);
    hide Parallel, Routed, Shows, PeersIn;
  }

  lemma PrefixOf(section: string)
    ensures Extension(section) <==> |section| >= 2 && section[..2] == "x_"
  {
  }
}
