/**
 Fork lineage: the events folded into parent links and rewinds, the descendants a heal cascades to,
 and the cascade itself over the per-branch membership the semantic operators hold.
 */
module Lineage {
  import opened Wrappers
  import opened Order

  datatype ForkKind = Fork | Rewind

  datatype ForkEvent = ForkEvent(child: string, parent: string, atEpoch: nat, kind: ForkKind)

  datatype ForkError = AlreadyForked(child: string, parent: string, at: nat)

  datatype Lineage = Lineage(forks: map<string, (string, nat)>, rewinds: map<string, nat>)
  {
    predicate IsActive(branch: string) { branch !in rewinds }
  }

  const EMPTY := Lineage(map[], map[])

  /** Fold one event; a second fork record of a child is refused. */
  function Extend(l: Lineage, event: ForkEvent): Result<Lineage, ForkError> {
    match event.kind
    case Fork =>
      if event.child in l.forks
      then Err(AlreadyForked(event.child, l.forks[event.child].0, l.forks[event.child].1))
      else Ok(l.(forks := l.forks[event.child := (event.parent, event.atEpoch)]))
    case Rewind => Ok(l.(rewinds := l.rewinds[event.child := event.atEpoch]))
  }

  ghost predicate ForkAt(events: seq<ForkEvent>, i: int, child: string) {
    0 <= i < |events| && events[i].kind == Fork && events[i].child == child
  }

  ghost predicate RewindAt(events: seq<ForkEvent>, i: int, child: string) {
    0 <= i < |events| && events[i].kind == Rewind && events[i].child == child
  }

  ghost predicate LastRewind(events: seq<ForkEvent>, i: int, child: string) {
    RewindAt(events, i, child) && forall j :: RewindAt(events, j, child) ==> j <= i
  }

  ghost predicate ForkedOnce(events: seq<ForkEvent>) {
    forall i, j, child :: ForkAt(events, i, child) && ForkAt(events, j, child) ==> i == j
  }

  /** `l` says of every branch what the events say of it: its one fork record and its last rewind. */
  ghost predicate Reflects(events: seq<ForkEvent>, l: Lineage) {
    && (forall child :: child in l.forks <==> exists i :: ForkAt(events, i, child))
    && (forall i, child :: ForkAt(events, i, child) ==>
          child in l.forks && l.forks[child] == (events[i].parent, events[i].atEpoch))
    && (forall child :: child in l.rewinds <==> exists i :: RewindAt(events, i, child))
    && (forall child :: child in l.rewinds ==>
          exists i :: LastRewind(events, i, child) && l.rewinds[child] == events[i].atEpoch)
  }

  lemma ExtendReflects(events: seq<ForkEvent>, l: Lineage, event: ForkEvent)
    requires ForkedOnce(events) && Reflects(events, l)
    ensures Extend(l, event).Ok? <==> ForkedOnce(events + [event])
    ensures Extend(l, event).Ok? ==> Reflects(events + [event], Extend(l, event).value)
  {
    var more := events + [event];
    var n := |events|;
    forall i: int, child {:trigger ForkAt(more, i, child)}
      ensures ForkAt(more, i, child) <==> ForkAt(events, i, child) || (i == n && event.kind == Fork && event.child == child) {}
    forall i: int, child {:trigger RewindAt(more, i, child)}
      ensures RewindAt(more, i, child) <==> RewindAt(events, i, child) || (i == n && event.kind == Rewind && event.child == child) {}
    assert forall i: int, child :: ForkAt(events, i, child) ==> ForkAt(more, i, child);
    assert forall i: int, child :: RewindAt(events, i, child) ==> RewindAt(more, i, child);
    if Extend(l, event).Err? {
      var i :| ForkAt(events, i, event.child);
      assert ForkAt(more, i, event.child) && ForkAt(more, n, event.child);
    } else {
      assert event.kind == Fork ==> ForkAt(more, n, event.child);
      assert event.kind == Rewind ==> LastRewind(more, n, event.child);
      forall i: int, child | LastRewind(events, i, child) && !(event.kind == Rewind && event.child == child)
        ensures LastRewind(more, i, child) {}
    }
  }

  /** The lineage of an event log: refused exactly when some child was forked twice. */
  method FromEvents(events: seq<ForkEvent>) returns (r: Result<Lineage, ForkError>)
    ensures r.Ok? <==> ForkedOnce(events)
    ensures r.Ok? ==> Reflects(events, r.value)
    ensures r.Err? ==> exists i, j :: i < j && ForkAt(events, i, r.error.child) && ForkAt(events, j, r.error.child)
                                      && r.error == AlreadyForked(events[j].child, events[i].parent, events[i].atEpoch)
  {
    var l := EMPTY;
    var i := 0;
    while i < |events|
      invariant 0 <= i <= |events|
      invariant ForkedOnce(events[..i]) && Reflects(events[..i], l)
    {
      ExtendReflects(events[..i], l, events[i]);
      assert events[..i] + [events[i]] == events[..i + 1];
      var next := Extend(l, events[i]);
      if next.Err? {
        ghost var j :| ForkAt(events[..i], j, events[i].child);
        assert ForkAt(events, j, events[i].child) && ForkAt(events, i, events[i].child);
        return Err(next.error);
      }
      l := next.value;
      i := i + 1;
    }
    assert events[..i] == events;
    r := Ok(l);
  }

  /** The `n`-th ancestor of a branch by parent links. */
  function Ancestor(forks: map<string, (string, nat)>, branch: string, n: nat): Option<string>
    decreases n
  {
    if n == 0 then Some(branch)
    else if branch !in forks then None
    else Ancestor(forks, forks[branch].0, n - 1)
  }

  ghost predicate Descends(forks: map<string, (string, nat)>, ancestor: string, branch: string) {
    exists n: nat :: n > 0 && Ancestor(forks, branch, n) == Some(ancestor)
  }

  /** The branches a heal on `branch` reaches besides `branch`: its descendants that were not rewound. */
  ghost function Active(l: Lineage, branch: string): set<string> {
    set d | d in l.forks && Descends(l.forks, branch, d) && l.IsActive(d)
  }

  ghost function Holders(l: Lineage, branch: string): set<string> { {branch} + Active(l, branch) }

  lemma {:induction false} AncestorStep(forks: map<string, (string, nat)>, branch: string, n: nat)
    requires Ancestor(forks, branch, n).Some?
    ensures var a := Ancestor(forks, branch, n).value;
            Ancestor(forks, branch, n + 1) == if a in forks then Some(forks[a].0) else None
    decreases n
  {
    if n > 0 { AncestorStep(forks, forks[branch].0, n - 1); }
  }

  lemma ChildDescends(forks: map<string, (string, nat)>, root: string, parent: string, child: string)
    requires child in forks && forks[child].0 == parent
    requires parent == root || Descends(forks, root, parent)
    ensures Descends(forks, root, child)
  {
    if parent == root {
      assert Ancestor(forks, child, 1) == Some(root);
    } else {
      var n: nat :| n > 0 && Ancestor(forks, parent, n) == Some(root);
      assert Ancestor(forks, child, n + 1) == Some(root);
    }
  }

  /** A set of branches that is closed under taking children of `root` and of its members. */
  ghost predicate ClosedBelow(forks: map<string, (string, nat)>, root: string, found: set<string>) {
    forall child :: child in forks && (forks[child].0 == root || forks[child].0 in found) ==> child in found
  }

  lemma {:induction false} ClosedHoldsDescendants(forks: map<string, (string, nat)>, root: string, found: set<string>, d: string, n: nat)
    requires ClosedBelow(forks, root, found) && n > 0 && Ancestor(forks, d, n) == Some(root)
    ensures d in found
    decreases n
  {
    if n > 1 { ClosedHoldsDescendants(forks, root, found, forks[d].0, n - 1); }
  }

  method ListSorted(s: set<string>) returns (q: seq<string>)
    ensures Sorted(Less, q) && Elements(q) == s
  {
    LessIsStrictTotal();
    q := [];
    var rest := s;
    while rest != {}
      invariant rest <= s && Elements(q) == s - rest && Sorted(Less, q)
      invariant forall x, y :: x in q && y in rest ==> Less(x, y)
      decreases rest
    {
      LeastExists(Less, rest);
      var m :| m in rest && forall x | x in rest :: x != m ==> Less(m, x);
      assert forall x :: x in q ==> Less(x, m);
      ElementsAppend(q, m);
      q := q + [m];
      rest := rest - {m};
    }
  }

  /** The children of `current` not found yet. */
  method Unseen(forks: map<string, (string, nat)>, current: string, found: set<string>)
    returns (children: seq<string>)
    ensures Elements(children) == set c | c in forks && forks[c].0 == current && c !in found
  {
    children := [];
    var rest := forks.Keys;
    while rest != {}
      invariant rest <= forks.Keys
      invariant Elements(children) == set c | c in forks.Keys - rest && forks[c].0 == current && c !in found
      decreases rest
    {
      var c :| c in rest;
      ElementsAppend(children, c);
      if forks[c].0 == current && c !in found { children := children + [c]; }
      rest := rest - {c};
    }
  }

  ghost predicate Explored(forks: map<string, (string, nat)>, root: string, found: set<string>, frontier: seq<string>) {
    && (forall d :: d in found ==> d in forks && Descends(forks, root, d))
    && (forall d :: d in frontier ==> d == root || d in found)
    && (forall child :: child in forks && child !in found && (forks[child].0 == root || forks[child].0 in found)
          ==> forks[child].0 in frontier)
  }

  lemma ExploreStep(forks: map<string, (string, nat)>, root: string, found: set<string>, frontier: seq<string>, children: seq<string>)
    requires Explored(forks, root, found, frontier) && frontier != []
    requires Elements(children) == set c | c in forks && forks[c].0 == frontier[|frontier| - 1] && c !in found
    ensures Explored(forks, root, found + Elements(children), frontier[..|frontier| - 1] + children)
  {
    var current := frontier[|frontier| - 1];
    var found' := found + Elements(children);
    var frontier' := frontier[..|frontier| - 1] + children;
    assert frontier == frontier[..|frontier| - 1] + [current];
    forall c | c in children ensures c in forks && Descends(forks, root, c) && c in found' {
      assert c in Elements(children);
      ChildDescends(forks, root, current, c);
    }
    forall child | child in forks && child !in found' && (forks[child].0 == root || forks[child].0 in found')
      ensures forks[child].0 in frontier'
    {
      if forks[child].0 in children {
      } else {
        assert forks[child].0 in frontier;
        assert forks[child].0 != current;
      }
    }
  }

  /**
   The worklist: it ends on every fork map, cyclic ones included, and yields exactly the descendants
   that were not rewound, reached through rewound ones too, in order.
   */
  method ActiveDescendants(l: Lineage, branch: string) returns (r: seq<string>)
    ensures Sorted(Less, r) && Elements(r) == Active(l, branch)
  {
    var found: set<string> := {};
    var frontier := [branch];
    while frontier != []
      invariant Explored(l.forks, branch, found, frontier)
      decreases l.forks.Keys - found, |frontier|
    {
      var current := frontier[|frontier| - 1];
      var children := Unseen(l.forks, current, found);
      ExploreStep(l.forks, branch, found, frontier, children);
      if children == [] {
        assert found + Elements(children) == found;
      } else {
        assert children[0] in Elements(children);
        assert children[0] in (l.forks.Keys - found) && children[0] !in l.forks.Keys - (found + Elements(children));
      }
      frontier := frontier[..|frontier| - 1] + children;
      found := found + Elements(children);
    }
    forall d | d in l.forks && Descends(l.forks, branch, d) ensures d in found {
      var n: nat :| n > 0 && Ancestor(l.forks, d, n) == Some(branch);
      ClosedHoldsDescendants(l.forks, branch, found, d, n);
    }
    r := ListSorted(set d | d in found && l.IsActive(d));
  }

  /** Branch -> the (table, key) rows its semantic operators hold. */
  type Held = map<string, set<(string, string)>>

  function Rows(held: Held, branch: string): set<(string, string)> {
    if branch in held then held[branch] else {}
  }

  function Drop(table: string, keys: seq<string>): set<(string, string)> {
    set k | k in keys :: (table, k)
  }

  ghost function CascadeOn(held: Held, reached: set<string>, table: string, keys: seq<string>): Held {
    map b | b in held :: if b in reached then held[b] - Drop(table, keys) else held[b]
  }

  /** What a heal leaves: the named rows gone from the named branch and its active descendants only. */
  ghost function Cascade(l: Lineage, semantic: set<string>, held: Held, branch: string, table: string, keys: seq<string>): Held {
    if table !in semantic then held else CascadeOn(held, Holders(l, branch), table, keys)
  }

  /** An operator refuses a batch that retracts one held key twice, and its branch is left as it was. */
  predicate Conflict(held: Held, branch: string, table: string, keys: seq<string>) {
    && branch in held
    && exists i, j :: 0 <= i < j < |keys| && keys[i] == keys[j] && (table, keys[i]) in held[branch]
  }

  lemma ConflictGrows(small: Held, large: Held, branch: string, table: string, keys: seq<string>)
    requires Conflict(small, branch, table, keys) && branch in large && small[branch] <= large[branch]
    ensures Conflict(large, branch, table, keys)
  {
  }

  method RemoveKeys(held: set<(string, string)>, table: string, keys: seq<string>) returns (left: set<(string, string)>)
    ensures left == held - Drop(table, keys)
  {
    left := held;
    for i := 0 to |keys|
      invariant left == held - Drop(table, keys[..i])
    {
      left := left - {(table, keys[i])};
      assert keys[..i + 1] == keys[..i] + [keys[i]];
    }
    assert keys[..|keys|] == keys;
  }

  /**
   The healer's loop over the writing branch and every active descendant. It completes exactly when
   no holder refuses the batch; otherwise it stops there, with the holders before it healed.
   */
  method Heal(l: Lineage, semantic: set<string>, held: Held, branch: string, table: string, keys: seq<string>)
    returns (healed: Held, ok: bool, ghost reached: set<string>)
    ensures ok <==> table !in semantic || forall b :: b in Holders(l, branch) ==> !Conflict(held, b, table, keys)
    ensures ok ==> healed == Cascade(l, semantic, held, branch, table, keys)
    ensures reached <= Holders(l, branch)
    ensures healed == if table in semantic then CascadeOn(held, reached, table, keys) else held
    ensures !ok ==> exists b :: b in Holders(l, branch) && Conflict(healed, b, table, keys)
  {
    if table !in semantic { return held, true, {}; }
    hide Sorted, Less, Active, Conflict, CascadeOn, Drop;
    var descendants := ActiveDescendants(l, branch);
    var branches := [branch] + descendants;
    assert Elements(branches) == {branch} + Elements(descendants);
    assert Elements(branches) == Holders(l, branch);
    hide Holders;
    healed, reached := held, {};
    CascadeNone(held, table, keys);
    for i := 0 to |branches|
      invariant healed == CascadeOn(held, reached, table, keys) && reached == Elements(branches[..i])
      invariant forall b :: b in reached ==> !Conflict(held, b, table, keys)
    {
      var holder := branches[i];
      CascadeNext(held, reached, holder, table, keys);
      ElementsAppend(branches[..i], holder);
      assert branches[..i + 1] == branches[..i] + [holder];
      if holder in healed {
        if Conflict(healed, holder, table, keys) {
          ConflictGrows(healed, held, holder, table, keys);
          return healed, false, reached;
        }
        var left := RemoveKeys(healed[holder], table, keys);
        healed := healed[holder := left];
      }
      reached := reached + {holder};
    }
    assert branches[..|branches|] == branches;
    ok := true;
  }

  lemma CascadeNone(held: Held, table: string, keys: seq<string>)
    ensures CascadeOn(held, {}, table, keys) == held
  {
  }

  /** Healing one more branch of a cascade; only a first visit can meet a conflict. */
  lemma CascadeNext(held: Held, reached: set<string>, holder: string, table: string, keys: seq<string>)
    ensures var healed, next := CascadeOn(held, reached, table, keys), CascadeOn(held, reached + {holder}, table, keys);
            && healed.Keys == held.Keys
            && next == (if holder in healed then healed[holder := healed[holder] - Drop(table, keys)] else healed)
            && (holder in held ==> healed[holder] <= held[holder])
            && (holder in held && holder !in reached ==> healed[holder] == held[holder])
  {
    var healed, next := CascadeOn(held, reached, table, keys), CascadeOn(held, reached + {holder}, table, keys);
    hide Drop;
    if holder in held { assert next[holder] == healed[holder] - Drop(table, keys); }
  }

  /** Isolation: a heal moves no branch outside the writing branch and its active descendants. */
  lemma HealIsolated(l: Lineage, semantic: set<string>, held: Held, branch: string, table: string, keys: seq<string>, other: string)
    requires other != branch && !(Descends(l.forks, branch, other) && l.IsActive(other))
    ensures Rows(Cascade(l, semantic, held, branch, table, keys), other) == Rows(held, other)
  {
  }
}
