/** Backoffs of an OSD session: the order of objects, interval lookup, and the two indexes. */
module Backoff {

  datatype Option<T> = None | Some(value: T)

  // ------------------------------------------------------------------ the order

  function Cmp(a: int, b: int): int
  {
    if a < b then -1 else if a > b then 1 else 0
  }

  /** memcmp of the first n bytes */
  function MemCmp(a: seq<bv8>, b: seq<bv8>, n: nat): int
    requires n <= |a| && n <= |b|
    decreases n
  {
    if n == 0 then 0
    else if a[0] != b[0] then (if a[0] < b[0] then -1 else 1)
    else MemCmp(a[1..], b[1..], n - 1)
  }

  /** compare_names */
  function CompareNames(a: seq<bv8>, b: seq<bv8>): int
  {
    var c := MemCmp(a, b, if |a| <= |b| then |a| else |b|);
    if c != 0 then c else Cmp(|a|, |b|)
  }

  /** Dictionary order. */
  function Dictionary(a: seq<bv8>, b: seq<bv8>): int
  {
    if a == [] then (if b == [] then 0 else -1)
    else if b == [] then 1
    else if a[0] != b[0] then (if a[0] < b[0] then -1 else 1)
    else Dictionary(a[1..], b[1..])
  }

  lemma {:induction false} NamesAreDictionary(a: seq<bv8>, b: seq<bv8>)
    ensures CompareNames(a, b) == Dictionary(a, b)
    decreases |a|
  {
    if a != [] && b != [] && a[0] == b[0] {
      NamesAreDictionary(a[1..], b[1..]);
    }
  }

  /** What three comparisons of a total preorder tell: a with b, b with c and a with c. */
  predicate Fits(ab: int, bc: int, ac: int)
  {
    && (ab <= 0 && bc <= 0 ==> ac <= 0)
    && (ab >= 0 && bc >= 0 ==> ac >= 0)
    && (ab <= 0 && bc <= 0 && (ab < 0 || bc < 0) ==> ac < 0)
    && (ab >= 0 && bc >= 0 && (ab > 0 || bc > 0) ==> ac > 0)
  }

  function Then(first: int, second: int): int
  {
    if first != 0 then first else second
  }

  lemma {:induction false} DictionaryOrder(a: seq<bv8>, b: seq<bv8>, c: seq<bv8>)
    ensures Fits(Dictionary(a, b), Dictionary(b, c), Dictionary(a, c))
    decreases |a|
  {
    if a != [] && b != [] && c != [] && a[0] == b[0] && b[0] == c[0] {
      DictionaryOrder(a[1..], b[1..], c[1..]);
    }
  }

  lemma {:induction false} DictionaryTurn(a: seq<bv8>, b: seq<bv8>)
    ensures Dictionary(a, b) == -Dictionary(b, a) && (Dictionary(a, b) == 0 <==> a == b)
    decreases |a|
  {
    if a != [] && b != [] && a[0] == b[0] {
      DictionaryTurn(a[1..], b[1..]);
      assert a == [a[0]] + a[1..] && b == [b[0]] + b[1..];
    }
  }

  /** An object of a placement group; hash is already bit-reversed. */
  datatype Hoid = Hoid(isMax: nat, pool: int, hash: nat, nspace: seq<bv8>, key: seq<bv8>, oid: seq<bv8>, snapid: nat) {
    function BitwiseKey(): nat {
      if isMax != 0 then 0x1_0000_0000 else hash
    }

    function EffectiveKey(): seq<bv8> {
      if key != [] then key else oid
    }
  }

  /** hoid_compare */
  function Compare(a: Hoid, b: Hoid): int
  {
    if a.isMax < b.isMax then -1
    else if a.isMax > b.isMax then 1
    else if a.pool < b.pool then -1
    else if a.pool > b.pool then 1
    else if a.BitwiseKey() < b.BitwiseKey() then -1
    else if a.BitwiseKey() > b.BitwiseKey() then 1
    else
      var ns := CompareNames(a.nspace, b.nspace);
      if ns != 0 then ns else
      var key := CompareNames(a.EffectiveKey(), b.EffectiveKey());
      if key != 0 then key else
      var oid := CompareNames(a.oid, b.oid);
      if oid != 0 then oid
      else if a.snapid < b.snapid then -1
      else if a.snapid > b.snapid then 1
      else 0
  }

  /** The comparison as a chain of seven. */
  function Chain(a: Hoid, b: Hoid): int
  {
    Then(Cmp(a.isMax, b.isMax), Then(Cmp(a.pool, b.pool), Then(Cmp(a.BitwiseKey(), b.BitwiseKey()),
    Then(Dictionary(a.nspace, b.nspace), Then(Dictionary(a.EffectiveKey(), b.EffectiveKey()),
    Then(Dictionary(a.oid, b.oid), Cmp(a.snapid, b.snapid)))))))
  }

  lemma CompareIsChain(a: Hoid, b: Hoid)
    ensures Compare(a, b) == Chain(a, b)
  {
    NamesAreDictionary(a.nspace, b.nspace);
    NamesAreDictionary(a.EffectiveKey(), b.EffectiveKey());
    NamesAreDictionary(a.oid, b.oid);
    hide Dictionary, CompareNames;
  }

  /** hoid_compare is transitive, for <, for == and for mixtures of the two. */
  lemma CompareTransitive(a: Hoid, b: Hoid, c: Hoid)
    ensures Fits(Compare(a, b), Compare(b, c), Compare(a, c))
  {
    CompareIsChain(a, b);
    CompareIsChain(b, c);
    CompareIsChain(a, c);
    DictionaryOrder(a.nspace, b.nspace, c.nspace);
    DictionaryOrder(a.EffectiveKey(), b.EffectiveKey(), c.EffectiveKey());
    DictionaryOrder(a.oid, b.oid, c.oid);
    hide Dictionary, Compare;
  }

  /** It is total, and two objects compare equal exactly when all that is compared is equal. */
  lemma CompareTurn(a: Hoid, b: Hoid)
    ensures Compare(a, b) == -Compare(b, a)
    ensures Compare(a, b) == 0 <==>
            a.isMax == b.isMax && a.pool == b.pool && a.BitwiseKey() == b.BitwiseKey() && a.nspace == b.nspace
            && a.EffectiveKey() == b.EffectiveKey() && a.oid == b.oid && a.snapid == b.snapid
  {
    CompareIsChain(a, b);
    CompareIsChain(b, a);
    DictionaryTurn(a.nspace, b.nspace);
    DictionaryTurn(a.EffectiveKey(), b.EffectiveKey());
    DictionaryTurn(a.oid, b.oid);
    hide Dictionary, Compare;
  }

  predicate Less(a: Hoid, b: Hoid)
  {
    Compare(a, b) < 0
  }

  lemma LessTransitive(a: Hoid, b: Hoid, c: Hoid)
    ensures Compare(a, b) <= 0 && Compare(b, c) < 0 ==> Compare(a, c) < 0
    ensures Compare(a, b) < 0 && Compare(b, c) <= 0 ==> Compare(a, c) < 0
  {
    CompareTransitive(a, b, c);
  }

  // ------------------------------------------------------------------ the tree

  datatype Spg = Spg(pool: int, seed: nat, shard: int)

  /** A range [begin, end) of a placement group, or the single object begin if end == begin. */
  datatype Range = Range(spgid: Spg, id: nat, begin: Hoid, end: Hoid)

  /** target_contained_by, and the tests of lookup_containing_backoff */
  predicate Contains(r: Range, h: Hoid)
  {
    Compare(h, r.begin) == 0 || (Compare(h, r.begin) > 0 && Compare(h, r.end) < 0)
  }

  datatype Tree = Leaf | Node(left: Tree, range: Range, right: Tree)

  function Ranges(t: Tree): set<Range>
  {
    match t
    case Leaf => {}
    case Node(l, r, u) => Ranges(l) + {r} + Ranges(u)
  }

  ghost predicate AllBelow(t: Tree, h: Hoid)
  {
    forall r :: r in Ranges(t) ==> Less(r.begin, h)
  }

  ghost predicate AllAbove(t: Tree, h: Hoid)
  {
    forall r :: r in Ranges(t) ==> Less(h, r.begin)
  }

  /** A search tree by begin. */
  ghost predicate Search(t: Tree)
  {
    t.Node? ==> Search(t.left) && Search(t.right) && AllBelow(t.left, t.range.begin) && AllAbove(t.right, t.range.begin)
  }

  /** A range never reaches past the beginning of a later one, except within it. */
  ghost predicate Separate(rs: set<Range>)
  {
    forall a, b, h :: a in rs && b in rs && Less(a.begin, b.begin) && Less(b.begin, h) && Contains(a, h) ==> Contains(b, h)
  }

  ghost predicate Disjoint(rs: set<Range>)
  {
    forall a, b, h :: a in rs && b in rs && a != b && Contains(a, h) ==> !Contains(b, h)
  }

  lemma DisjointSeparate(rs: set<Range>)
    requires Disjoint(rs)
    ensures Separate(rs)
  {
    forall a, b, h | a in rs && b in rs && Less(a.begin, b.begin) && Less(b.begin, h) && Contains(a, h)
      ensures Contains(b, h)
    {
      // the beginning of b would lie in both
      LessTransitive(b.begin, h, a.end);
      CompareTurn(a.begin, b.begin);
      CompareTurn(b.begin, b.begin);
      LessTransitive(a.begin, b.begin, h);
      CompareTurn(h, a.begin);
      assert Contains(a, b.begin) && Contains(b, b.begin);
      CompareTurn(a.begin, a.begin);
    }
  }

  lemma NotOnTheRight(t: Tree, h: Hoid, r: Range)
    requires t.Node? && Search(t) && Less(h, t.range.begin) && r in Ranges(t.right)
    ensures !Contains(r, h)
  {
    assert Less(t.range.begin, r.begin);
    LessTransitive(h, t.range.begin, r.begin);
  }

  /** The range with the greatest begin that is not above the object. */
  ghost predicate Last(rs: set<Range>, p: Range, h: Hoid)
  {
    p in rs && !Less(h, p.begin) && forall r :: r in rs && !Less(h, r.begin) ==> !Less(p.begin, r.begin)
  }

  /** Some range of the set contains the object. */
  ghost predicate Blocked(rs: set<Range>, h: Hoid)
  {
    exists r :: r in rs && Contains(r, h)
  }

  /** If any range contains the object, the last one that begins at or below it does. */
  ghost predicate Reaches(rs: set<Range>, h: Hoid)
  {
    Blocked(rs, h) ==> exists p :: Last(rs, p, h) && Contains(p, h)
  }

  /** A search down the tree. */
  function Lookup(t: Tree, h: Hoid): Option<Range>
  {
    match t
    case Leaf => None
    case Node(l, r, u) =>
      var cmp := Compare(h, r.begin);
      if cmp < 0 then Lookup(l, h)
      else if cmp > 0 then (if Compare(h, r.end) < 0 then Some(r) else Lookup(u, h))
      else Some(r)
  }

  /** What a search finds contains the object, and it finds the last range below the object if that does. */
  lemma {:induction false} LookupFinds(t: Tree, h: Hoid)
    requires Search(t)
    ensures Lookup(t, h).Some? ==> Lookup(t, h).value in Ranges(t) && Contains(Lookup(t, h).value, h)
    ensures (exists p :: Last(Ranges(t), p, h) && Contains(p, h)) ==> Lookup(t, h).Some?
    decreases t
  {
    match t
    case Leaf =>
    case Node(l, x, u) =>
      hide Compare, Contains;
      ContainsAt(x, h);
      CompareTurn(h, x.begin);
      LookupFinds(l, h);
      LookupFinds(u, h);
      if p :| Last(Ranges(t), p, h) && Contains(p, h) {
        LastBelow(t, p, h);
      }
  }

  /** The last range below an object is on the side the search goes to. */
  lemma LastBelow(t: Tree, p: Range, h: Hoid)
    requires t.Node? && Search(t) && Last(Ranges(t), p, h)
    ensures Less(h, t.range.begin) ==> Last(Ranges(t.left), p, h)
    ensures !Less(h, t.range.begin) && p != t.range ==> Last(Ranges(t.right), p, h)
  {
    hide Compare;
    CompareTurn(h, t.range.begin);
    if p in Ranges(t.right) {
      LessTransitive(h, t.range.begin, p.begin);
    } else if p in Ranges(t.left) {
      assert Less(p.begin, t.range.begin);
    }
  }

  /** Where some range begins at or below the object, one of them is the last. */
  lemma {:induction false} LastExists(t: Tree, x: Range, h: Hoid) returns (p: Range)
    requires Search(t) && x in Ranges(t) && !Less(h, x.begin)
    ensures Last(Ranges(t), p, h)
    decreases t
  {
    hide Compare;
    var y := t.range;
    CompareTurn(y.begin, y.begin);
    if Less(h, y.begin) {
      forall r | r in Ranges(t.right) ensures Less(h, r.begin) { LessTransitive(h, y.begin, r.begin); }
      p := LastExists(t.left, x, h);
    } else if z :| z in Ranges(t.right) && !Less(h, z.begin) {
      p := LastExists(t.right, z, h);
      forall r | r in Ranges(t.left) + {y} ensures !Less(p.begin, r.begin) {
        CompareTurn(r.begin, y.begin);
        NotAfter(r.begin, y.begin, p.begin);
      }
    } else {
      p := y;
      forall r | r in Ranges(t.left) ensures !Less(y.begin, r.begin) { CompareTurn(r.begin, y.begin); }
    }
  }

  lemma NotAfter(a: Hoid, b: Hoid, c: Hoid)
    requires !Less(b, a) && Less(b, c)
    ensures !Less(c, a)
  {
    CompareTurn(a, b);
    CompareTurn(a, c);
    LessTransitive(a, b, c);
  }

  /** The ranges of a tree that begin below a point, as a tree. */
  function Below(t: Tree, k: Hoid): Tree
  {
    match t
    case Leaf => Leaf
    case Node(l, x, u) => if Less(x.begin, k) then Node(l, x, Below(u, k)) else Below(l, k)
  }

  /** The ranges of a tree that begin above a point, as a tree. */
  function Above(t: Tree, k: Hoid): Tree
  {
    match t
    case Leaf => Leaf
    case Node(l, x, u) => if Less(k, x.begin) then Node(Above(l, k), x, u) else Above(u, k)
  }

  lemma {:induction false} BelowKeeps(t: Tree, k: Hoid)
    requires Search(t)
    ensures Search(Below(t, k)) && forall r :: r in Ranges(Below(t, k)) <==> r in Ranges(t) && Less(r.begin, k)
  {
    hide Compare;
    match t
    case Leaf =>
    case Node(l, x, u) =>
      BelowKeeps(l, k);
      BelowKeeps(u, k);
      forall r | r in Ranges(l) && Less(x.begin, k) ensures Less(r.begin, k) { LessTransitive(r.begin, x.begin, k); }
      forall r | r in Ranges(u) && !Less(x.begin, k) ensures !Less(r.begin, k) { CompareTurn(k, x.begin); CompareTurn(k, r.begin); LessTransitive(k, x.begin, r.begin); }
  }

  lemma {:induction false} AboveKeeps(t: Tree, k: Hoid)
    requires Search(t)
    ensures Search(Above(t, k)) && forall r :: r in Ranges(Above(t, k)) <==> r in Ranges(t) && Less(k, r.begin)
  {
    hide Compare;
    match t
    case Leaf =>
    case Node(l, x, u) =>
      AboveKeeps(l, k);
      AboveKeeps(u, k);
      forall r | r in Ranges(u) && Less(k, x.begin) ensures Less(k, r.begin) { LessTransitive(k, x.begin, r.begin); }
      forall r | r in Ranges(l) && !Less(k, x.begin) ensures !Less(k, r.begin) { CompareTurn(k, x.begin); CompareTurn(k, r.begin); LessTransitive(r.begin, x.begin, k); }
  }

  /** Begins differ within a search tree. */
  lemma {:induction false} DistinctBegins(t: Tree, a: Range, b: Range)
    requires Search(t) && a in Ranges(t) && b in Ranges(t) && a != b
    ensures Compare(a.begin, b.begin) != 0
    decreases t
  {
    hide Compare;
    var Node(l, x, u) := t;
    CompareTurn(a.begin, b.begin);
    CompareTurn(x.begin, a.begin);
    if a in Ranges(l) && b in Ranges(l) {
      DistinctBegins(l, a, b);
    } else if a in Ranges(u) && b in Ranges(u) {
      DistinctBegins(u, a, b);
    } else {
      LessTransitive(a.begin, x.begin, b.begin);
      LessTransitive(b.begin, x.begin, a.begin);
    }
  }

  /** The same ranges in a tree with the given one at its root. */
  function Rooted(t: Tree, p: Range): Tree
  {
    Node(Below(t, p.begin), p, Above(t, p.begin))
  }

  lemma RootedKeeps(t: Tree, p: Range)
    requires Search(t) && p in Ranges(t)
    ensures Search(Rooted(t, p)) && Ranges(Rooted(t, p)) == Ranges(t)
  {
    BelowKeeps(t, p.begin);
    AboveKeeps(t, p.begin);
    hide Compare;
    forall r | r in Ranges(t) && r != p ensures Less(r.begin, p.begin) || Less(p.begin, r.begin) {
      DistinctBegins(t, r, p);
      CompareTurn(r.begin, p.begin);
    }
  }

  lemma {:induction false} NothingAbove(t: Tree, h: Hoid)
    requires AllAbove(t, h)
    ensures Lookup(t, h) == None
  {
    if t.Node? {
      assert Less(h, t.range.begin);
      NothingAbove(t.left, h);
    }
  }

  /** A tree with the last range below the object at its root misses, if that range does not contain it. */
  lemma RootedMisses(t: Tree, p: Range, h: Hoid)
    requires Search(t) && Last(Ranges(t), p, h) && !Contains(p, h)
    ensures Lookup(Rooted(t, p), h) == None
  {
    AboveKeeps(t, p.begin);
    CompareTurn(h, p.begin);
    ContainsAt(p, h);
    hide Compare;
    NothingAbove(Above(t, p.begin), h);
  }

  /** A search agrees with a scan for this object, whatever the tree of these ranges looks like. */
  ghost predicate AlwaysFound(rs: set<Range>, h: Hoid)
  {
    forall t :: Search(t) && Ranges(t) == rs ==> (Lookup(t, h).Some? <==> Blocked(rs, h))
  }

  /** Every search tree of some ranges finds what a scan finds exactly if the last range that begins at or below the object contains it, if any does. */
  lemma LookupExactly(t: Tree, h: Hoid)
    requires Search(t)
    ensures AlwaysFound(Ranges(t), h) <==> Reaches(Ranges(t), h)
  {
    var rs := Ranges(t);
    hide Compare, Contains, Search, Lookup, Ranges, Less;
    forall u | Search(u) && Ranges(u) == rs ensures Reaches(rs, h) ==> (Lookup(u, h).Some? <==> Blocked(rs, h)) {
      LookupIsScan(u, h);
    }
    if x :| x in rs && Contains(x, h) && AlwaysFound(rs, h) {
      NotBefore(x, h);
      var p := LastExists(t, x, h);
      RootedKeeps(t, p);
      if !Contains(p, h) { RootedMisses(t, p, h); }
    }
  }

  lemma NotBefore(x: Range, h: Hoid)
    requires Contains(x, h)
    ensures !Less(h, x.begin)
  {
  }

  /** What a search finds contains the object; for an object that ranges reach, it finds something exactly when a scan would. */
  lemma LookupIsScan(t: Tree, h: Hoid)
    requires Search(t)
    ensures Lookup(t, h).Some? ==> Lookup(t, h).value in Ranges(t) && Contains(Lookup(t, h).value, h)
    ensures Reaches(Ranges(t), h) ==> (Lookup(t, h).Some? <==> Blocked(Ranges(t), h))
  {
    LookupFinds(t, h);
    hide Compare, Contains, Lookup, Ranges, Search, Last;
  }

  /** Where no range reaches past a later one, every object is reached. */
  lemma SeparateReaches(t: Tree, h: Hoid)
    requires Search(t) && Separate(Ranges(t))
    ensures Reaches(Ranges(t), h)
  {
    var rs := Ranges(t);
    hide Compare, Contains, Search, Ranges;
    if x :| x in rs && Contains(x, h) {
      NotBefore(x, h);
      var p := LastExists(t, x, h);
      ContainsAt(p, h);
      CompareTurn(h, p.begin);
      if x != p {
        DistinctBegins(t, x, p);
        CompareTurn(x.begin, p.begin);
      }
      assert Contains(p, h);
    }
  }

  /** lookup_containing_backoff */
  method LookupContaining(root: Tree, h: Hoid) returns (found: Option<Range>)
    ensures found == Lookup(root, h)
  {
    hide Compare;
    var n := root;
    while n.Node?
      invariant Lookup(n, h) == Lookup(root, h)
      decreases n
    {
      var cmp := Compare(h, n.range.begin);
      if cmp < 0 {
        n := n.left;
      } else if cmp > 0 {
        if Compare(h, n.range.end) < 0 {
          return Some(n.range);
        }
        n := n.right;
      } else {
        return Some(n.range);
      }
    }
    return None;
  }

  lemma ContainsAt(r: Range, h: Hoid)
    ensures Contains(r, h) <==> Compare(h, r.begin) == 0 || (Compare(h, r.begin) > 0 && Compare(h, r.end) < 0)
  {
  }

  /** Three objects in order, which differ in their snapshot numbers alone. */
  function Numbered(n: nat): Hoid
  {
    Hoid(0, 0, 0, [], [], [], n)
  }

  lemma NumberedOrder(a: nat, b: nat)
    ensures Compare(Numbered(a), Numbered(b)) == Cmp(a, b)
  {
    DictionaryTurn([], []);
    CompareIsChain(Numbered(a), Numbered(b));
  }

  /** With nested ranges a search can miss what a scan finds. */
  lemma NestedIsMissed(spg: Spg)
    ensures
      var outer, inner := Range(spg, 1, Numbered(1), Numbered(10)), Range(spg, 2, Numbered(3), Numbered(4));
      var t := Node(Node(Leaf, outer, Leaf), inner, Leaf);
      Search(t) && Contains(outer, Numbered(5)) && outer in Ranges(t) && Lookup(t, Numbered(5)) == None
  {
    var outer, inner := Range(spg, 1, Numbered(1), Numbered(10)), Range(spg, 2, Numbered(3), Numbered(4));
    var t := Node(Node(Leaf, outer, Leaf), inner, Leaf);
    NumberedOrder(1, 3);
    NumberedOrder(3, 5);
    NumberedOrder(5, 3);
    NumberedOrder(5, 4);
    NumberedOrder(5, 1);
    NumberedOrder(5, 10);
    hide Compare;
    assert Ranges(t.left) == {outer} && Ranges(Leaf) == {};
    assert Search(Node(Leaf, outer, Leaf));
    assert Search(t);
    assert Contains(outer, Numbered(5)) && !Contains(inner, Numbered(5));
    assert Lookup(t.right, Numbered(5)) == None;
  }

  // -------------------------------------------------------- inserting and erasing

  /** insert_backoff; a range with the same begin is a bug. */
  function Insert(t: Tree, r: Range): Option<Tree>
  {
    match t
    case Leaf => Some(Node(Leaf, r, Leaf))
    case Node(l, x, u) =>
      var cmp := Compare(r.begin, x.begin);
      if cmp < 0 then
        match Insert(l, r) { case None => None case Some(l') => Some(Node(l', x, u)) }
      else if cmp > 0 then
        match Insert(u, r) { case None => None case Some(u') => Some(Node(l, x, u')) }
      else None
  }

  lemma {:induction false} InsertKeeps(t: Tree, r: Range)
    requires Search(t)
    ensures Insert(t, r).None? <==> SameBegin(Ranges(t), r.begin)
    ensures Insert(t, r).Some? ==> Search(Insert(t, r).value) && Ranges(Insert(t, r).value) == Ranges(t) + {r}
  {
    match t
    case Leaf =>
    case Node(l, x, u) =>
      hide Compare;
      var cmp := Compare(r.begin, x.begin);
      CompareTurn(r.begin, x.begin);
      if cmp < 0 {
        InsertKeeps(l, r);
        forall y | y in Ranges(u) ensures Compare(y.begin, r.begin) != 0 {
          LessTransitive(r.begin, x.begin, y.begin);
          CompareTurn(r.begin, y.begin);
        }
      } else if cmp > 0 {
        InsertKeeps(u, r);
        forall y | y in Ranges(l) ensures Compare(y.begin, r.begin) != 0 {
          LessTransitive(y.begin, x.begin, r.begin);
        }
      }
  }

  /** The least range of a tree, and the tree without it. */
  function PopFirst(t: Tree): (p: (Range, Tree))
    requires t.Node?
    decreases t
  {
    if t.left == Leaf then (t.range, t.right)
    else var (r, l) := PopFirst(t.left); (r, Node(l, t.range, t.right))
  }

  lemma {:induction false} PopFirstKeeps(t: Tree)
    requires t.Node? && Search(t)
    ensures
      var (r, rest) := PopFirst(t);
      r in Ranges(t) && r !in Ranges(rest) && Ranges(rest) == Ranges(t) - {r} && Search(rest) && AllAbove(rest, r.begin)
    decreases t
  {
    hide Compare;
    if t.left == Leaf {
      forall y | y in Ranges(t.right) ensures y != t.range {
        CompareTurn(t.range.begin, t.range.begin);
      }
    } else {
      PopFirstKeeps(t.left);
      var (r, l) := PopFirst(t.left);
      CompareTurn(t.range.begin, t.range.begin);
      forall y | y in Ranges(t.right) ensures Less(r.begin, y.begin) && y != r {
        LessTransitive(r.begin, t.range.begin, y.begin);
        CompareTurn(r.begin, r.begin);
      }
    }
  }

  /** Two search trees with a node between them taken out. */
  function Merge(l: Tree, u: Tree): Tree
  {
    if u == Leaf then l else var (r, u') := PopFirst(u); Node(l, r, u')
  }

  lemma MergeKeeps(l: Tree, x: Range, u: Tree)
    requires Search(Node(l, x, u))
    ensures Search(Merge(l, u)) && Ranges(Merge(l, u)) == Ranges(l) + Ranges(u)
  {
    hide Compare;
    if u.Node? {
      PopFirstKeeps(u);
      var (r, u') := PopFirst(u);
      forall y | y in Ranges(l) ensures Less(y.begin, r.begin) { LessTransitive(y.begin, x.begin, r.begin); }
    }
  }

  /** erase_backoff */
  function Erase(t: Tree, r: Range): Tree
  {
    match t
    case Leaf => Leaf
    case Node(l, x, u) =>
      var cmp := Compare(r.begin, x.begin);
      if cmp < 0 then Node(Erase(l, r), x, u) else if cmp > 0 then Node(l, x, Erase(u, r)) else Merge(l, u)
  }

  lemma {:induction false} EraseKeeps(t: Tree, r: Range)
    requires Search(t) && r in Ranges(t)
    ensures Search(Erase(t, r)) && Ranges(Erase(t, r)) == Ranges(t) - {r}
  {
    hide Compare;
    var Node(l, x, u) := t;
    var cmp := Compare(r.begin, x.begin);
    CompareTurn(r.begin, x.begin);
    CompareTurn(x.begin, x.begin);
    if cmp < 0 {
      EraseKeeps(l, r);
      forall y | y in Ranges(u) ensures y != r { LessTransitive(r.begin, x.begin, y.begin); CompareTurn(r.begin, r.begin); }
    } else if cmp > 0 {
      EraseKeeps(u, r);
      forall y | y in Ranges(l) ensures y != r { LessTransitive(y.begin, x.begin, r.begin); CompareTurn(r.begin, r.begin); }
    } else {
      MergeKeeps(l, x, u);
    }
  }

  // ------------------------------------------------------------------ the session

  /** A request as far as backoffs look at it. */
  datatype Request = Request(tid: nat, spgid: Spg, target: Hoid)

  datatype Installed = Added | NoMemory | Bug

  type ById = map<nat, Range>

  type Groups = map<Spg, Tree>

  /** Both indexes hold the same backoffs, each under its own key. */
  ghost predicate InSync(byId: ById, groups: Groups)
  {
    && (forall g :: g in groups ==> Search(groups[g]))
    && (forall i :: i in byId ==> byId[i].id == i && byId[i].spgid in groups && byId[i] in Ranges(groups[byId[i].spgid]))
    && (forall g, r :: g in groups && r in Ranges(groups[g]) ==> r.spgid == g && r.id in byId && byId[r.id] == r)
  }

  /** The backoffs of a placement group. */
  ghost function Of(groups: Groups, g: Spg): set<Range>
  {
    if g in groups then Ranges(groups[g]) else {}
  }

  lemma AddSync(byId: ById, groups: Groups, m: Range, t: Tree)
    requires InSync(byId, groups) && m.id !in byId && Search(t) && Ranges(t) == Of(groups, m.spgid) + {m}
    ensures InSync(byId[m.id := m], groups[m.spgid := t])
  {
    hide Search, Ranges;
  }

  lemma EmptySync(byId: ById, groups: Groups, g: Spg)
    requires InSync(byId, groups) && g !in groups
    ensures InSync(byId, groups[g := Leaf])
  {
    LeafSearch();
    hide Search, Ranges;
  }

  /** Taking a backoff out of both. */
  lemma EraseSync(byId: ById, groups: Groups, g: Spg, m: Range, t: Tree)
    requires InSync(byId, groups) && g in groups && m in Ranges(groups[g]) && Search(t) && Ranges(t) == Ranges(groups[g]) - {m}
    ensures InSync(byId - {m.id}, groups[g := t])
  {
    hide Search, Ranges;
  }

  /** Dropping a placement group without backoffs. */
  lemma DropSync(byId: ById, groups: Groups, g: Spg)
    requires InSync(byId, groups) && g in groups && groups[g] == Leaf
    ensures InSync(byId, groups - {g}) && forall x :: Of(groups - {g}, x) == Of(groups, x)
  {
    LeafSearch();
    hide Search, Ranges;
  }

  lemma NothingLeft(byId: ById)
    requires InSync(byId, map[])
    ensures byId == map[]
  {
  }

  lemma LeafSearch()
    ensures Search(Leaf) && Ranges(Leaf) == {}
  {
  }

  lemma EmptyTree(t: Tree)
    ensures t == Leaf <==> Ranges(t) == {}
  {
  }

  /** The requests in the unblocked range that no other backoff holds back. */
  ghost function Resendable(requests: seq<Request>, m: Range, others: set<Range>): seq<Request>
  {
    if requests == [] then [] else
    var req := requests[|requests| - 1];
    Resendable(requests[..|requests| - 1], m, others)
    + if req.spgid == m.spgid && Contains(m, req.target) && !Blocked(others, req.target) then [req] else []
  }

  /** The other ranges reach the target of every request in the unblocked range. */
  ghost predicate AllReached(requests: seq<Request>, m: Range, others: set<Range>)
  {
    forall i :: 0 <= i < |requests| && requests[i].spgid == m.spgid && Contains(m, requests[i].target) ==> Reaches(others, requests[i].target)
  }

  /** The backoffs of one OSD session: a tree for each placement group, and an index by id. */
  class Session {
    var byId: ById
    var groups: Groups

    ghost predicate Valid()
      reads this
    {
      InSync(byId, groups)
    }

    constructor ()
      ensures Valid() && byId == map[] && groups == map[]
    {
      byId, groups := map[], map[];
    }

    /** should_plug_request */
    method ShouldPlug(req: Request) returns (plug: bool)
      requires Valid()
      ensures plug ==> Blocked(Of(groups, req.spgid), req.target)
      ensures Reaches(Of(groups, req.spgid), req.target) ==> (plug <==> Blocked(Of(groups, req.spgid), req.target))
    {
      hide Compare, Contains, Reaches, Lookup;
      if req.spgid !in groups {
        return false;
      }
      LookupIsScan(groups[req.spgid], req.target);
      var found := LookupContaining(groups[req.spgid], req.target);
      plug := found.Some?;
    }

    /** handle_backoff_block: inserting a second backoff with the same begin or the same id is a bug. */
    method Block(m: Range, memory: bool) returns (r: Installed)
      requires Valid()
      modifies this
      ensures r == Bug <==> memory && (old(SameBegin(Of(groups, m.spgid), m.begin)) || m.id in old(byId))
      ensures r != Bug ==> Valid()
      ensures r == Added ==> byId == old(byId)[m.id := m] && Of(groups, m.spgid) == old(Of(groups, m.spgid)) + {m}
      ensures r == NoMemory ==> byId == old(byId) && Of(groups, m.spgid) == old(Of(groups, m.spgid))
      ensures forall g :: g != m.spgid ==> Of(groups, g) == old(Of(groups, g))
    {
      LeafSearch();
      hide Compare, Search, Insert, Ranges;
      if m.spgid !in groups {
        EmptySync(byId, groups, m.spgid);
        groups := groups[m.spgid := Leaf];
      }
      if !memory {
        return NoMemory;
      }
      assert Search(groups[m.spgid]);
      hide InSync;
      InsertKeeps(groups[m.spgid], m);
      var t := Insert(groups[m.spgid], m);
      if t.None? || m.id in byId {
        return Bug;
      }
      AddSync(byId, groups, m, t.value);
      groups := groups[m.spgid := t.value];
      byId := byId[m.id := m];
      return Added;
    }

    /** The end of handle_backoff_unblock: what the unblocked range held back is sent again. */
    method Resend(m: Range, requests: seq<Request>) returns (resent: seq<Request>)
      requires Valid()
      ensures AllReached(requests, m, Of(groups, m.spgid)) ==> resent == Resendable(requests, m, Of(groups, m.spgid))
    {
      hide InSync, Contains, Of, Blocked, Reaches;
      resent := [];
      for i := 0 to |requests|
        invariant AllReached(requests, m, Of(groups, m.spgid)) ==> resent == Resendable(requests[..i], m, Of(groups, m.spgid))
      {
        var req := requests[i];
        assert requests[..i + 1][..i] == requests[..i];
        if req.spgid == m.spgid && Contains(m, req.target) {
          var plugged := ShouldPlug(req);
          if !plugged {
            resent := resent + [req];
          }
        }
      }
      assert requests[..|requests|] == requests;
    }

    /** handle_backoff_unblock, with the requests it sends again. */
    method Unblock(m: Range, requests: seq<Request>) returns (resent: seq<Request>)
      requires Valid()
      modifies this
      ensures Valid() && byId == old(byId) - {m.id}
      ensures m.id in old(byId) ==> Of(groups, old(byId)[m.id].spgid) == old(Of(groups, byId[m.id].spgid)) - {old(byId)[m.id]}
      ensures forall g :: m.id !in old(byId) || g != old(byId)[m.id].spgid ==> Of(groups, g) == old(Of(groups, g))
      ensures m.id !in old(byId) ==> resent == []
      ensures m.id in old(byId) && AllReached(requests, m, Of(groups, m.spgid)) ==> resent == Resendable(requests, m, Of(groups, m.spgid))
    {
      if m.id !in byId {
        hide InSync;
        assert byId == byId - {m.id};
        return [];
      }
      Forget(m.id);
      hide InSync, Contains, AllReached, Blocked, Search, Ranges, Erase, Resendable, Of;
      resent := Resend(m, requests);
    }

    /** The part of handle_backoff_unblock that takes the backoff out of both indexes. */
    method Forget(id: nat)
      requires Valid() && id in byId
      modifies this
      ensures Valid() && byId == old(byId) - {id}
      ensures Of(groups, old(byId)[id].spgid) == old(Of(groups, byId[id].spgid)) - {old(byId)[id]}
      ensures forall g :: g != old(byId)[id].spgid ==> Of(groups, g) == old(Of(groups, g))
    {
      var backoff := byId[id];
      assert backoff.spgid in groups && backoff in Ranges(groups[backoff.spgid]) && Search(groups[backoff.spgid]) && backoff.id == id;
      hide InSync, Search, Ranges, Erase;
      var t := groups[backoff.spgid];
      EraseKeeps(t, backoff);
      EraseSync(byId, groups, backoff.spgid, backoff, Erase(t, backoff));
      groups := groups[backoff.spgid := Erase(t, backoff)];
      byId := byId - {id};
      if groups[backoff.spgid] == Leaf {
        DropSync(byId, groups, backoff.spgid);
        groups := groups - {backoff.spgid};
      }
    }

    /** clear_backoffs */
    method Clear()
      requires Valid()
      modifies this
      ensures Valid() && byId == map[] && groups == map[]
    {
      hide Search, PopFirst, Ranges, Of;
      while groups != map[]
        invariant Valid()
        decreases groups.Keys
      {
        var g :| g in groups;
        ClearGroup(g);
        hide InSync;
        DropSync(byId, groups, g);
        groups := groups - {g};
      }
      NothingLeft(byId);
    }

    /** The inner loop of clear_backoffs. */
    method ClearGroup(g: Spg)
      requires Valid() && g in groups
      modifies this
      ensures Valid() && g in groups && groups[g] == Leaf && groups.Keys == old(groups.Keys)
    {
      hide Search, PopFirst, Ranges;
      while groups[g] != Leaf
        invariant Valid() && g in groups && groups.Keys == old(groups.Keys)
        decreases Ranges(groups[g])
      {
        assert Search(groups[g]);
        hide InSync;
        PopFirstKeeps(groups[g]);
        var (backoff, rest) := PopFirst(groups[g]);
        EraseSync(byId, groups, g, backoff, rest);
        groups := groups[g := rest];
        byId := byId - {backoff.id};
      }
    }
  }

  ghost predicate SameBegin(rs: set<Range>, h: Hoid)
  {
    exists x :: x in rs && Compare(x.begin, h) == 0
  }
}
