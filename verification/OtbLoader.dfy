/** The loader of src/fileloader.cpp at the level of its memory: nodes are stored by value in child
    vectors, a growing vector moves its elements to a new buffer, and the parse stack holds
    addresses. */
module OtbLoader {
  import opened Options
  import opened Otb
  import opened Words

  /** Element `index` of the buffer of some vector. Buffer 0 is the loader's own `root` field. */
  datatype Addr = Addr(buffer: nat, index: nat)

  /** A `std::vector<Node>`; the buffer of a vector without capacity means nothing. */
  datatype Vector = Vector(buffer: nat, size: nat, capacity: nat)

  datatype Cell = Cell(kind: byte, propsBegin: nat, propsEnd: nat, children: Vector)

  /** All live nodes by address. Reading an address outside `cells` would be a dangling access. */
  datatype Arena = Arena(cells: map<Addr, Cell>, nextBuffer: nat)

  const ROOT: Addr := Addr(0, 0)
  const EMPTY: Vector := Vector(0, 0, 0)

  /** The way from the root to a node, as child positions. */
  datatype Path = Top | Child(parent: Path, index: nat)

  predicate Under(q: Path, p: Path) {
    q == p || (q.Child? && Under(q.parent, p))
  }

  lemma UnderTransitive(q: Path, p: Path, i: nat)
    requires Under(q, Child(p, i))
    ensures Under(q, p)
  {
  }

  /** `at` says where the node at each path lives: children sit in their parent's buffer. */
  ghost predicate Linked(m: Arena, at: map<Path, Addr>) {
    && Top in at && at[Top] == ROOT
    && (forall p :: p in at ==> at[p] in m.cells)
    && (forall p, i: nat {:trigger Child(p, i) in at} ::
          Child(p, i) in at <==> p in at && i < m.cells[at[p]].children.size)
    && (forall p, i: nat {:trigger at[Child(p, i)]} ::
          Child(p, i) in at ==> at[Child(p, i)] == Addr(m.cells[at[p]].children.buffer, i))
  }

  /** Vectors have room for their elements, in buffers of their own. */
  ghost predicate Apart(m: Arena, at: map<Path, Addr>)
    requires Linked(m, at)
  {
    && (forall p :: p in at ==>
          var v := m.cells[at[p]].children;
          v.size <= v.capacity && (v.capacity > 0 ==> 0 < v.buffer < m.nextBuffer))
    && (forall p, q :: p in at && q in at && p != q ==>
          var v, w := m.cells[at[p]].children, m.cells[at[q]].children;
          v.capacity > 0 && w.capacity > 0 ==> v.buffer != w.buffer)
    && m.nextBuffer > 0
  }

  ghost predicate ArenaOk(m: Arena, at: map<Path, Addr>) {
    Linked(m, at) && Apart(m, at)
  }

  lemma Shape(m: Arena, at: map<Path, Addr>, q: Path)
    requires ArenaOk(m, at) && q in at
    ensures at[q] in m.cells && 0 < m.nextBuffer
    ensures var v := m.cells[at[q]].children;
            v.size <= v.capacity && (v.capacity > 0 ==> 0 < v.buffer < m.nextBuffer)
    ensures match q
            case Top => at[q] == ROOT
            case Child(r, i) =>
              && r in at && at[r] in m.cells && i < m.cells[at[r]].children.size
              && at[q] == Addr(m.cells[at[r]].children.buffer, i)
              && m.cells[at[r]].children.size <= m.cells[at[r]].children.capacity
              && 0 < m.cells[at[r]].children.buffer < m.nextBuffer
  {
    if q.Child? { assert q == Child(q.parent, q.index) && Child(q.parent, q.index) in at; }
  }

  lemma Link(m: Arena, at: map<Path, Addr>, p: Path, i: nat)
    requires ArenaOk(m, at)
    ensures Child(p, i) in at <==> p in at && at[p] in m.cells && i < m.cells[at[p]].children.size
    ensures Child(p, i) in at ==> at[Child(p, i)] == Addr(m.cells[at[p]].children.buffer, i)
  {
  }

  lemma BuffersApart(m: Arena, at: map<Path, Addr>, p: Path, q: Path)
    requires ArenaOk(m, at) && p in at && q in at && p != q
    requires m.cells[at[p]].children.capacity > 0 && m.cells[at[q]].children.capacity > 0
    ensures m.cells[at[p]].children.buffer != m.cells[at[q]].children.buffer
  {
  }

  lemma AddressesDiffer(m: Arena, at: map<Path, Addr>, p: Path, q: Path)
    requires ArenaOk(m, at) && p in at && q in at && p != q
    ensures at[p] != at[q]
  {
    hide Linked;
    hide Apart;
    Shape(m, at, p);
    Shape(m, at, q);
    if p.Child? && q.Child? && p.parent != q.parent {
      Shape(m, at, p.parent);
      Shape(m, at, q.parent);
      BuffersApart(m, at, p.parent, q.parent);
    }
  }

  /** The node stored at path `p`, with everything below it, is `n`. */
  ghost predicate Stores(m: Arena, at: map<Path, Addr>, p: Path, n: Node)
    decreases n
  {
    p in at && at[p] in m.cells &&
    var c := m.cells[at[p]];
    && c.kind == n.kind && c.propsBegin == n.propsBegin && c.propsEnd == n.propsEnd
    && c.children.size == |n.children|
    && forall i :: 0 <= i < |n.children| ==> Stores(m, at, Child(p, i), n.children[i])
  }

  predicate SameNode(c: Cell, d: Cell) {
    c.kind == d.kind && c.propsBegin == d.propsBegin && c.propsEnd == d.propsEnd && c.children.size == d.children.size
  }

  /** A stored node is untouched by changes elsewhere, wherever its memory is moved. */
  lemma {:induction false} StoresFrame(m: Arena, at: map<Path, Addr>, m': Arena, at': map<Path, Addr>, p: Path, n: Node)
    requires Stores(m, at, p, n)
    requires forall q {:trigger Under(q, p)} :: Under(q, p) && q in at && at[q] in m.cells ==>
               q in at' && at'[q] in m'.cells && SameNode(m.cells[at[q]], m'.cells[at'[q]])
    ensures Stores(m', at', p, n)
    decreases n
  {
    assert Under(p, p);
    forall i | 0 <= i < |n.children| ensures Stores(m', at', Child(p, i), n.children[i]) {
      forall q | Under(q, Child(p, i)) ensures Under(q, p) {
        UnderTransitive(q, p, i);
      }
      StoresFrame(m, at, m', at', Child(p, i), n.children[i]);
    }
  }

  // ---------------------------------------------------------------- emplace_back

  /** The addresses of a vector's elements are live. */
  ghost predicate VectorOk(m: Arena, v: Vector) {
    forall i {:trigger Addr(v.buffer, i)} :: 0 <= i < v.size ==> Addr(v.buffer, i) in m.cells
  }

  /** `children.emplace_back()` on the node at `a`; `growth` is the spare room a new buffer gets. */
  function Emplaced(m: Arena, a: Addr, growth: nat): Arena
    requires a in m.cells && VectorOk(m, m.cells[a].children)
  {
    var c := m.cells[a];
    var v := c.children;
    if v.size < v.capacity then
      m.(cells := m.cells[Addr(v.buffer, v.size) := Cell(0, 0, 0, EMPTY)]
                         [a := c.(children := v.(size := v.size + 1))])
    else
      var kept := map x | x in m.cells && (v.capacity == 0 || x.buffer != v.buffer) :: m.cells[x];
      var moved := map i | 0 <= i < v.size :: Addr(m.nextBuffer, i) := m.cells[Addr(v.buffer, i)];
      Arena((kept + moved)[Addr(m.nextBuffer, v.size) := Cell(0, 0, 0, EMPTY)]
                          [a := c.(children := Vector(m.nextBuffer, v.size + 1, v.size + 1 + growth))],
            m.nextBuffer + 1)
  }

  /** Where the nodes are afterwards: the elements of the grown vector may have moved. */
  ghost function Relocated(m: Arena, at: map<Path, Addr>, p: Path): map<Path, Addr>
    requires p in at && at[p] in m.cells
  {
    var v := m.cells[at[p]].children;
    var buffer := if v.size < v.capacity then v.buffer else m.nextBuffer;
    (map q | q in at :: if q.Child? && q.parent == p then Addr(buffer, q.index) else at[q])
      [Child(p, v.size) := Addr(buffer, v.size)]
  }

  lemma ElementsLive(m: Arena, at: map<Path, Addr>, p: Path)
    requires ArenaOk(m, at) && p in at
    ensures VectorOk(m, m.cells[at[p]].children)
  {
    var v := m.cells[at[p]].children;
    forall i: nat | i < v.size ensures Addr(v.buffer, i) in m.cells {
      assert Child(p, i) in at;
    }
  }

  /** Every node keeps its contents, wherever it is now. */
  lemma EmplacedCell(m: Arena, at: map<Path, Addr>, p: Path, growth: nat, q: Path)
    requires ArenaOk(m, at) && p in at && VectorOk(m, m.cells[at[p]].children) && q in at && q != p
    ensures at[p] in m.cells && at[q] in m.cells
    ensures var m', at' := Emplaced(m, at[p], growth), Relocated(m, at, p);
            at'[q] in m'.cells && m'.cells[at'[q]] == m.cells[at[q]]
  {
    hide Linked;
    hide Apart;
    Shape(m, at, p);
    Shape(m, at, q);
    AddressesDiffer(m, at, p, q);
    if q.Child? && q.parent != p {
      Shape(m, at, q.parent);
      if m.cells[at[p]].children.capacity > 0 { BuffersApart(m, at, p, q.parent); }
    }
  }

  /** The pointer to the growing node itself stays good, and the new element is blank. */
  lemma EmplacedSelf(m: Arena, at: map<Path, Addr>, p: Path, growth: nat)
    requires ArenaOk(m, at) && p in at && VectorOk(m, m.cells[at[p]].children)
    ensures at[p] in m.cells
    ensures var m', at' := Emplaced(m, at[p], growth), Relocated(m, at, p);
            var c, n := m.cells[at[p]], m.cells[at[p]].children.size;
            && p in at' && Child(p, n) in at' && at'[p] == at[p] && at[p] in m'.cells && at'[Child(p, n)] in m'.cells
            && m'.cells[at[p]] == c.(children := m'.cells[at[p]].children)
            && m'.cells[at[p]].children.size == n + 1
            && m'.cells[at'[Child(p, n)]] == Cell(0, 0, 0, EMPTY)
  {
    hide Linked;
    hide Apart;
    Shape(m, at, p);
    if p.Child? {
      Shape(m, at, p.parent);
      assert p.parent < p;
      if m.cells[at[p]].children.capacity > 0 { BuffersApart(m, at, p, p.parent); }
    }
  }

  /** The vector a node has afterwards. */
  ghost function VectorAfter(m: Arena, at: map<Path, Addr>, p: Path, growth: nat, q: Path): Vector
    requires p in at && at[p] in m.cells && (q in at ==> at[q] in m.cells)
  {
    var v := m.cells[at[p]].children;
    if q == p then
      if v.size < v.capacity then v.(size := v.size + 1)
      else Vector(m.nextBuffer, v.size + 1, v.size + 1 + growth)
    else if q in at then m.cells[at[q]].children
    else EMPTY
  }

  lemma EmplacedVectors(m: Arena, at: map<Path, Addr>, p: Path, growth: nat, q: Path)
    requires ArenaOk(m, at) && p in at && VectorOk(m, m.cells[at[p]].children)
    requires q in Relocated(m, at, p)
    ensures at[p] in m.cells && (q in at ==> at[q] in m.cells)
    ensures var m', at' := Emplaced(m, at[p], growth), Relocated(m, at, p);
            at'[q] in m'.cells && m'.cells[at'[q]].children == VectorAfter(m, at, p, growth, q)
  {
    if q in at && q != p { EmplacedCell(m, at, p, growth, q); } else { EmplacedSelf(m, at, p, growth); }
  }

  lemma EmplacedChild(m: Arena, at: map<Path, Addr>, p: Path, growth: nat, q: Path, i: nat)
    requires ArenaOk(m, at) && p in at && VectorOk(m, m.cells[at[p]].children)
    ensures at[p] in m.cells && (q in at ==> at[q] in m.cells)
    ensures var at' := Relocated(m, at, p);
            && (Child(q, i) in at' <==> q in at' && i < VectorAfter(m, at, p, growth, q).size)
            && (Child(q, i) in at' ==> at'[Child(q, i)] == Addr(VectorAfter(m, at, p, growth, q).buffer, i))
  {
    hide Linked;
    hide Apart;
    hide VectorOk;
    Shape(m, at, p);
    var n := m.cells[at[p]].children.size;
    Link(m, at, p, n);
    Link(m, at, q, i);
    if q == Child(p, n) {
      assert p < q < Child(q, i);
    } else if q in at && q != p {
      Shape(m, at, q);
    }
  }

  lemma TopStays(m: Arena, at: map<Path, Addr>, p: Path)
    requires ArenaOk(m, at) && p in at
    ensures Top in Relocated(m, at, p) && Relocated(m, at, p)[Top] == ROOT
  {
  }

  lemma EmplacedLinked(m: Arena, at: map<Path, Addr>, p: Path, growth: nat)
    requires ArenaOk(m, at) && p in at && VectorOk(m, m.cells[at[p]].children)
    ensures Linked(Emplaced(m, at[p], growth), Relocated(m, at, p))
  {
    hide Apart;
    hide Relocated;
    hide Emplaced;
    hide VectorAfter;
    var m', at' := Emplaced(m, at[p], growth), Relocated(m, at, p);
    TopStays(m, at, p);
    forall q | q in at'
      ensures at'[q] in m'.cells && m'.cells[at'[q]].children == VectorAfter(m, at, p, growth, q)
    {
      EmplacedVectors(m, at, p, growth, q);
    }
    forall q, i: nat
      ensures Child(q, i) in at' <==> q in at' && i < m'.cells[at'[q]].children.size
      ensures Child(q, i) in at' ==> at'[Child(q, i)] == Addr(m'.cells[at'[q]].children.buffer, i)
    {
      EmplacedChild(m, at, p, growth, q, i);
    }
  }

  lemma EmplacedArenaOk(m: Arena, at: map<Path, Addr>, p: Path, growth: nat)
    requires ArenaOk(m, at) && p in at && VectorOk(m, m.cells[at[p]].children)
    ensures ArenaOk(Emplaced(m, at[p], growth), Relocated(m, at, p))
  {
    EmplacedLinked(m, at, p, growth);
    EmplacedApart(m, at, p, growth);
  }

  lemma EmplacedApart(m: Arena, at: map<Path, Addr>, p: Path, growth: nat)
    requires ArenaOk(m, at) && p in at && VectorOk(m, m.cells[at[p]].children)
    ensures Linked(Emplaced(m, at[p], growth), Relocated(m, at, p)) ==> Apart(Emplaced(m, at[p], growth), Relocated(m, at, p))
  {
    hide Emplaced;
    hide Relocated;
    hide ArenaOk;
    hide Room;
    hide Separate;
    NextBuffer(m, at, p, growth);
    var m', at' := Emplaced(m, at[p], growth), Relocated(m, at, p);
    forall q | q in at' ensures Room(m', at', q) {
      EmplacedRoom(m, at, p, growth, q);
    }
    forall q, r | q in at' && r in at' && q != r ensures Separate(m', at', q, r) {
      EmplacedSeparate(m, at, p, growth, q, r);
    }
    if Linked(m', at') { ApartFrom(m', at'); }
  }

  ghost predicate Room(m: Arena, at: map<Path, Addr>, q: Path)
    requires q in at
  {
    at[q] in m.cells
    && var v := m.cells[at[q]].children;
       v.size <= v.capacity && (v.capacity > 0 ==> 0 < v.buffer < m.nextBuffer)
  }

  ghost predicate Separate(m: Arena, at: map<Path, Addr>, q: Path, r: Path)
    requires q in at && r in at
  {
    at[q] in m.cells && at[r] in m.cells
    && var v, w := m.cells[at[q]].children, m.cells[at[r]].children;
       v.capacity > 0 && w.capacity > 0 ==> v.buffer != w.buffer
  }

  lemma ApartFrom(m: Arena, at: map<Path, Addr>)
    requires Linked(m, at) && m.nextBuffer > 0
    requires forall q :: q in at ==> Room(m, at, q)
    requires forall q, r :: q in at && r in at && q != r ==> Separate(m, at, q, r)
    ensures Apart(m, at)
  {
    forall q, r | q in at && r in at && q != r
      ensures var v, w := m.cells[at[q]].children, m.cells[at[r]].children;
              v.capacity > 0 && w.capacity > 0 ==> v.buffer != w.buffer
    {
      assert Separate(m, at, q, r);
    }
    forall q | q in at
      ensures var v := m.cells[at[q]].children;
              v.size <= v.capacity && (v.capacity > 0 ==> 0 < v.buffer < m.nextBuffer)
    {
      assert Room(m, at, q);
    }
  }

  lemma EmplacedRoom(m: Arena, at: map<Path, Addr>, p: Path, growth: nat, q: Path)
    requires ArenaOk(m, at) && p in at && VectorOk(m, m.cells[at[p]].children) && q in Relocated(m, at, p)
    ensures at[p] in m.cells && Room(Emplaced(m, at[p], growth), Relocated(m, at, p), q)
  {
    hide Emplaced;
    hide Relocated;
    hide VectorAfter;
    EmplacedVectors(m, at, p, growth, q);
    AfterHasRoom(m, at, p, growth, q);
  }

  lemma EmplacedSeparate(m: Arena, at: map<Path, Addr>, p: Path, growth: nat, q: Path, r: Path)
    requires ArenaOk(m, at) && p in at && VectorOk(m, m.cells[at[p]].children)
    requires q in Relocated(m, at, p) && r in Relocated(m, at, p) && q != r
    ensures at[p] in m.cells && Separate(Emplaced(m, at[p], growth), Relocated(m, at, p), q, r)
  {
    hide Emplaced;
    hide Relocated;
    hide VectorAfter;
    EmplacedVectors(m, at, p, growth, q);
    EmplacedVectors(m, at, p, growth, r);
    AfterIsApart(m, at, p, growth, q, r);
  }

  lemma NextBuffer(m: Arena, at: map<Path, Addr>, p: Path, growth: nat)
    requires ArenaOk(m, at) && p in at && VectorOk(m, m.cells[at[p]].children)
    ensures at[p] in m.cells && 0 < m.nextBuffer
    ensures var v := m.cells[at[p]].children;
            Emplaced(m, at[p], growth).nextBuffer == if v.size < v.capacity then m.nextBuffer else m.nextBuffer + 1
  {
  }

  lemma AfterHasRoom(m: Arena, at: map<Path, Addr>, p: Path, growth: nat, q: Path)
    requires ArenaOk(m, at) && p in at && VectorOk(m, m.cells[at[p]].children)
    ensures at[p] in m.cells && (q in at ==> at[q] in m.cells)
    ensures var v := VectorAfter(m, at, p, growth, q);
            v.size <= v.capacity && (v.capacity > 0 ==> 0 < v.buffer < Emplaced(m, at[p], growth).nextBuffer)
  {
    NextBuffer(m, at, p, growth);
    Shape(m, at, p);
    if q in at { Shape(m, at, q); }
  }

  lemma AfterIsApart(m: Arena, at: map<Path, Addr>, p: Path, growth: nat, q: Path, r: Path)
    requires ArenaOk(m, at) && p in at && VectorOk(m, m.cells[at[p]].children) && q != r
    ensures at[p] in m.cells && (q in at ==> at[q] in m.cells) && (r in at ==> at[r] in m.cells)
    ensures var v, w := VectorAfter(m, at, p, growth, q), VectorAfter(m, at, p, growth, r);
            v.capacity > 0 && w.capacity > 0 ==> v.buffer != w.buffer
  {
    hide Linked;
    hide Apart;
    hide VectorOk;
    Shape(m, at, p);
    if q in at { Shape(m, at, q); }
    if r in at { Shape(m, at, r); }
    if q in at && r in at && m.cells[at[q]].children.capacity > 0 && m.cells[at[r]].children.capacity > 0 {
      BuffersApart(m, at, q, r);
    }
  }

  // ---------------------------------------------------------------- the parse stack

  ghost predicate LevelOk(m: Arena, at: map<Path, Addr>, p: Path, o: Open, openChild: bool) {
    p in at && at[p] in m.cells &&
    var c := m.cells[at[p]];
    && c.kind == o.kind && c.propsBegin == o.propsBegin && c.propsEnd == o.propsEnd
    && c.children.size == |o.children| + (if openChild then 1 else 0)
    && forall j :: 0 <= j < |o.children| ==> Stores(m, at, Child(p, j), o.children[j])
  }

  /** Stack entry `i` is the address, now, of the node at path `i`: the node being read, the one
      that contains it, and so on. `opens` is what these nodes hold so far. */
  ghost predicate StackOk(m: Arena, at: map<Path, Addr>, stack: seq<Addr>, paths: seq<Path>, opens: seq<Open>) {
    && ArenaOk(m, at)
    && |stack| == |paths| == |opens| > 0
    && paths[0] == Top
    && (forall i :: 0 < i < |paths| ==> paths[i] == Child(paths[i - 1], |opens[i - 1].children|))
    && (forall i :: 0 <= i < |paths| ==> paths[i] in at && stack[i] == at[paths[i]])
    && (forall i :: 0 <= i < |paths| ==> LevelOk(m, at, paths[i], opens[i], i < |paths| - 1))
  }

  ghost predicate Chain(paths: seq<Path>, opens: seq<Open>) {
    && |paths| == |opens|
    && forall i :: 0 < i < |paths| ==> paths[i] == Child(paths[i - 1], |opens[i - 1].children|)
  }

  function Length(p: Path): nat {
    if p == Top then 0 else 1 + Length(p.parent)
  }

  lemma UnderIsLonger(q: Path, p: Path)
    requires Under(q, p)
    ensures Length(q) >= Length(p) && (Length(q) == Length(p) ==> q == p)
  {
  }

  /** A node on the stack is in none of the finished subtrees. */
  lemma {:induction false} StackIsOutside(paths: seq<Path>, opens: seq<Open>, i: nat, j: nat, k: nat)
    requires Chain(paths, opens) && i < |paths| && k < |paths| && j < |opens[i].children|
    ensures !Under(paths[k], Child(paths[i], j))
    decreases k
  {
    if k == 0 {
      LengthsGrow(paths, opens, i, k);
      if Under(paths[k], Child(paths[i], j)) { UnderIsLonger(paths[k], Child(paths[i], j)); }
    } else {
      StackIsOutside(paths, opens, i, j, k - 1);
      if paths[k] == Child(paths[i], j) {
        LengthsGrow(paths, opens, i, k - 1);
      }
    }
  }

  lemma {:induction false} LengthsGrow(paths: seq<Path>, opens: seq<Open>, i: nat, k: nat)
    requires Chain(paths, opens) && i < |paths| && k < |paths|
    ensures Length(paths[i]) - Length(paths[k]) == i - k
    decreases i + k
  {
    if i == k {
    } else if i > k {
      LengthsGrow(paths, opens, i - 1, k);
    } else {
      LengthsGrow(paths, opens, i, k - 1);
    }
  }

  /** Nothing but the node at `p` has changed, though nodes may have moved. */
  ghost predicate SameElsewhere(m: Arena, at: map<Path, Addr>, m': Arena, at': map<Path, Addr>, p: Path) {
    forall q :: q in at && q != p && at[q] in m.cells ==>
      q in at' && at'[q] in m'.cells && SameNode(m.cells[at[q]], m'.cells[at'[q]])
  }

  /** Whatever happens to the node on top of the stack, finished children stay as they are. */
  lemma FinishedStay(m: Arena, at: map<Path, Addr>, m': Arena, at': map<Path, Addr>,
                     paths: seq<Path>, opens: seq<Open>, i: nat)
    requires Chain(paths, opens) && i < |paths| && SameElsewhere(m, at, m', at', paths[|paths| - 1])
    requires forall j :: 0 <= j < |opens[i].children| ==> Stores(m, at, Child(paths[i], j), opens[i].children[j])
    ensures forall j :: 0 <= j < |opens[i].children| ==> Stores(m', at', Child(paths[i], j), opens[i].children[j])
  {
    forall j | 0 <= j < |opens[i].children| ensures Stores(m', at', Child(paths[i], j), opens[i].children[j]) {
      StackIsOutside(paths, opens, i, j, |paths| - 1);
      StoresFrame(m, at, m', at', Child(paths[i], j), opens[i].children[j]);
    }
  }

  /** Nor does it matter to the nodes below it on the stack. */
  lemma LevelStays(m: Arena, at: map<Path, Addr>, m': Arena, at': map<Path, Addr>,
                   paths: seq<Path>, opens: seq<Open>, i: nat)
    requires Chain(paths, opens) && i < |paths| - 1 && SameElsewhere(m, at, m', at', paths[|paths| - 1])
    requires LevelOk(m, at, paths[i], opens[i], true)
    ensures LevelOk(m', at', paths[i], opens[i], true)
  {
    FinishedStay(m, at, m', at', paths, opens, i);
    LengthsGrow(paths, opens, i, |paths| - 1);
  }

  /** Writing fields of one node other than its child vector. */
  function Write(m: Arena, a: Addr, c: Cell): Arena {
    m.(cells := m.cells[a := c])
  }

  lemma WriteArenaOk(m: Arena, at: map<Path, Addr>, p: Path, c: Cell)
    requires ArenaOk(m, at) && p in at && c.children == m.cells[at[p]].children
    ensures ArenaOk(Write(m, at[p], c), at)
    ensures forall q :: q in at && q != p ==> Write(m, at[p], c).cells[at[q]] == m.cells[at[q]]
  {
    forall q | q in at && q != p ensures at[q] != at[p] {
      AddressesDiffer(m, at, p, q);
    }
    forall q | q in at ensures Write(m, at[p], c).cells[at[q]].children == m.cells[at[q]].children {}
  }

  /** `if (children.empty()) propsEnd = it` on the current node. */
  lemma MarkTop(m: Arena, at: map<Path, Addr>, stack: seq<Addr>, paths: seq<Path>, opens: seq<Open>, it: nat)
    returns (m': Arena)
    requires StackOk(m, at, stack, paths, opens)
    ensures var n := |stack|;
            var c := m.cells[stack[n - 1]];
            && m' == (if c.children.size == 0 then Write(m, stack[n - 1], c.(propsEnd := it)) else m)
            && StackOk(m', at, stack, paths, opens[n - 1 := Mark(opens[n - 1], it)])
  {
    hide Linked;
    hide Apart;
    hide Stores;
    var n := |stack|;
    var p := paths[n - 1];
    var c := m.cells[stack[n - 1]];
    if c.children.size == 0 {
      m' := Write(m, stack[n - 1], c.(propsEnd := it));
      WriteArenaOk(m, at, p, c.(propsEnd := it));
      var opens' := opens[n - 1 := Mark(opens[n - 1], it)];
      forall i | 0 <= i < n - 1 ensures LevelOk(m', at, paths[i], opens'[i], true) {
        LevelStays(m, at, m', at, paths, opens, i);
      }
    } else {
      m' := m;
      assert opens[n - 1 := Mark(opens[n - 1], it)] == opens;
    }
  }

  /** A parse-stack address survives the growth of the top node's vector. */
  lemma StackSurvives(m: Arena, at: map<Path, Addr>, stack: seq<Addr>, paths: seq<Path>, opens: seq<Open>, i: nat)
    requires StackOk(m, at, stack, paths, opens) && i < |stack|
    ensures var at' := Relocated(m, at, paths[|paths| - 1]);
            paths[i] in at' && at'[paths[i]] == stack[i]
  {
    hide Linked;
    hide Apart;
    LengthsGrow(paths, opens, i, |paths| - 1);
    var n := m.cells[at[paths[|paths| - 1]]].children.size;
    Link(m, at, paths[|paths| - 1], n);
    if paths[i].Child? && paths[i].parent == paths[|paths| - 1] { assert false; }
  }

  lemma EmplacedElsewhere(m: Arena, at: map<Path, Addr>, p: Path, growth: nat, c: Cell)
    requires ArenaOk(m, at) && p in at && VectorOk(m, m.cells[at[p]].children) && c.children == EMPTY
    ensures at[p] in m.cells
    ensures var m1, at' := Emplaced(m, at[p], growth), Relocated(m, at, p);
            var b := Addr(VectorAfter(m, at, p, growth, p).buffer, m.cells[at[p]].children.size);
            && Child(p, m.cells[at[p]].children.size) in at' && b == at'[Child(p, m.cells[at[p]].children.size)]
            && b in m1.cells && ArenaOk(Write(m1, b, c), at')
            && SameElsewhere(m, at, Write(m1, b, c), at', p)
            && p in at' && at'[p] in Write(m1, b, c).cells
            && Write(m1, b, c).cells[at'[p]] == m.cells[at[p]].(children := VectorAfter(m, at, p, growth, p))
            && Write(m1, b, c).cells[b] == c
  {
    Shape(m, at, p);
    var n := m.cells[at[p]].children.size;
    var m1, at' := Emplaced(m, at[p], growth), Relocated(m, at, p);
    EmplacedArenaOk(m, at, p, growth);
    EmplacedSelf(m, at, p, growth);
    EmplacedVectors(m, at, p, growth, p);
    EmplacedChild(m, at, p, growth, p, n);
    assert p < Child(p, n);
    WriteArenaOk(m1, at', Child(p, n), c);
    forall q | q in at && q != p ensures q in at' && at'[q] in m1.cells && m1.cells[at'[q]] == m.cells[at[q]] {
      EmplacedCell(m, at, p, growth, q);
    }
    Link(m, at, p, n);
    assert Child(p, n) !in at;
  }

  /** The stack with the address of a new last child of its top node. */
  lemma StackGrows(m: Arena, at: map<Path, Addr>, m': Arena, at': map<Path, Addr>, b: Addr,
                   stack: seq<Addr>, paths: seq<Path>, opens: seq<Open>, kind: byte, begin: nat)
    requires StackOk(m, at, stack, paths, opens) && ArenaOk(m', at')
    requires SameElsewhere(m, at, m', at', paths[|paths| - 1])
    requires forall i :: 0 <= i < |stack| ==> paths[i] in at' && at'[paths[i]] == stack[i]
    requires var a, p := stack[|stack| - 1], paths[|stack| - 1];
             && a in m.cells && a in m'.cells && m'.cells[a] == m.cells[a].(children := m'.cells[a].children)
             && m'.cells[a].children.size == m.cells[a].children.size + 1
             && Child(p, m.cells[a].children.size) in at' && at'[Child(p, m.cells[a].children.size)] == b
             && b in m'.cells && m'.cells[b] == Cell(kind, begin, 0, EMPTY)
    ensures StackOk(m', at', stack + [b], paths + [Child(paths[|paths| - 1], |opens[|opens| - 1].children|)],
                    opens + [Open(kind, begin, 0, [])])
  {
    hide Linked;
    hide Apart;
    hide Stores;
    var n := |stack|;
    assert LevelOk(m, at, paths[n - 1], opens[n - 1], false);
    forall i | 0 <= i < n ensures LevelOk(m', at', paths[i], opens[i], true) {
      if i < n - 1 {
        assert LevelOk(m, at, paths[i], opens[i], true);
        LevelStays(m, at, m', at', paths, opens, i);
      } else {
        FinishedStay(m, at, m', at', paths, opens, i);
      }
    }
  }

  /** `children.back()` of the node at `a`. */
  function Back(m: Arena, a: Addr): Addr
    requires a in m.cells && m.cells[a].children.size > 0
  {
    Addr(m.cells[a].children.buffer, m.cells[a].children.size - 1)
  }

  /** `emplace_back`, filling in the new child, and pushing its address. */
  lemma PushChild(m: Arena, at: map<Path, Addr>, stack: seq<Addr>, paths: seq<Path>, opens: seq<Open>,
                  growth: nat, kind: byte, begin: nat)
    requires StackOk(m, at, stack, paths, opens)
    requires stack[|stack| - 1] in m.cells && VectorOk(m, m.cells[stack[|stack| - 1]].children)
    ensures var a, p := stack[|stack| - 1], paths[|stack| - 1];
            var m1 := Emplaced(m, a, growth);
            && a in m1.cells && m1.cells[a].children.size > 0 && Back(m1, a) in m1.cells
            && m1.cells[Back(m1, a)] == Cell(0, 0, 0, EMPTY)
            && StackOk(Write(m1, Back(m1, a), Cell(kind, begin, 0, EMPTY)), Relocated(m, at, p), stack + [Back(m1, a)],
                       paths + [Child(p, |opens[|opens| - 1].children|)], opens + [Open(kind, begin, 0, [])])
  {
    var n := |stack|;
    var a, p := stack[n - 1], paths[n - 1];
    var c := Cell(kind, begin, 0, EMPTY);
    EmplacedElsewhere(m, at, p, growth, c);
    EmplacedSelf(m, at, p, growth);
    EmplacedVectors(m, at, p, growth, p);
    var m1, at' := Emplaced(m, a, growth), Relocated(m, at, p);
    forall i | 0 <= i < n ensures paths[i] in at' && at'[paths[i]] == stack[i] {
      StackSurvives(m, at, stack, paths, opens, i);
    }
    hide Linked;
    hide Apart;
    hide Emplaced;
    hide Relocated;
    hide StackOk;
    hide SameElsewhere;
    StackGrows(m, at, Write(m1, Back(m1, a), c), at', Back(m1, a), stack, paths, opens, kind, begin);
  }

  lemma LevelCloses(m: Arena, at: map<Path, Addr>, p: Path, o: Open)
    requires LevelOk(m, at, p, o, false)
    ensures Stores(m, at, p, Close(o))
  {
  }

  lemma LevelAdopts(m: Arena, at: map<Path, Addr>, p: Path, o: Open, n: Node)
    requires LevelOk(m, at, p, o, true) && Stores(m, at, Child(p, |o.children|), n)
    ensures LevelOk(m, at, p, o.(children := o.children + [n]), false)
  {
  }

  /** Closing the current node makes it a finished child of the node below. */
  lemma PopChild(m: Arena, at: map<Path, Addr>, stack: seq<Addr>, paths: seq<Path>, opens: seq<Open>, it: nat)
    requires StackOk(m, at, stack, paths, opens)
    requires opens[|opens| - 1] == Mark(opens[|opens| - 1], it)
    ensures var n := |stack|;
            if n == 1 then ArenaOk(m, at) && Pop(opens, it).1.Some? && Stores(m, at, Top, Pop(opens, it).1.value)
            else StackOk(m, at, stack[..n - 1], paths[..n - 1], Pop(opens, it).0) && Pop(opens, it).1 == None
  {
    hide ArenaOk;
    hide LevelOk;
    hide Stores;
    var n := |stack|;
    assert LevelOk(m, at, paths[n - 1], opens[n - 1], false);
    LevelCloses(m, at, paths[n - 1], opens[n - 1]);
    if n > 1 {
      assert LevelOk(m, at, paths[n - 2], opens[n - 2], true);
      LevelAdopts(m, at, paths[n - 2], opens[n - 2], Close(opens[n - 1]));
    }
  }

  lemma PushMarked(opens: seq<Open>, it: nat, kind: byte)
    requires opens != []
    ensures Push(opens, it, kind) == opens[|opens| - 1 := Mark(opens[|opens| - 1], it)] + [Open(kind, it + 2, 0, [])]
  {
  }

  lemma PopMarked(opens: seq<Open>, it: nat)
    requires opens != []
    ensures var marked := opens[|opens| - 1 := Mark(opens[|opens| - 1], it)];
            Pop(marked, it) == Pop(opens, it) && Mark(marked[|opens| - 1], it) == marked[|opens| - 1]
    ensures |Pop(opens, it).0| == |opens| - 1
    ensures Pop(opens, it).1 == None <==> |opens| > 1
  {
  }

  lemma RootOnStack(kind: byte)
    ensures StackOk(Arena(map[ROOT := Cell(kind, 6, 0, EMPTY)], 1), map[Top := ROOT], [ROOT], [Top],
                    [Open(kind, 6, 0, [])])
  {
  }

  /** `done` is what the properties before `src` come to. */
  ghost predicate Unescaped(file: seq<byte>, begin: nat, src: nat, stop: nat, done: seq<byte>)
    requires begin <= src <= stop <= |file|
  {
    Unescape(file[begin..stop]) == done + Unescape(file[src..stop])
  }

  /** One round of the loop of `getProps`; an escape byte at the very end yields nothing. */
  lemma UnescapeStep(file: seq<byte>, begin: nat, src: nat, stop: nat, done: seq<byte>)
    requires begin <= src < stop <= |file| && Unescaped(file, begin, src, stop, done)
    ensures if file[src] != ESCAPE then Unescaped(file, begin, src + 1, stop, done + [file[src]])
            else if src + 1 < stop then Unescaped(file, begin, src + 2, stop, done + [file[src + 1]])
            else Unescaped(file, begin, src + 1, stop, done)
  {
    var raw := file[src..stop];
    assert raw[1..] == file[src + 1..stop];
    if |raw| > 1 { assert raw[2..] == file[src + 2..stop]; }
  }

  lemma UnescapeEnds(file: seq<byte>, begin: nat, stop: nat, done: seq<byte>)
    requires begin <= stop <= |file|
    ensures Unescaped(file, begin, begin, stop, [])
    ensures Unescaped(file, begin, stop, stop, done) ==> Unescape(file[begin..stop]) == done
  {
  }

  // ---------------------------------------------------------------- the loader

  class Loader {
    const file: seq<byte>
    var arena: Arena
    ghost var at: map<Path, Addr>
    var propBuffer: array<byte>

    constructor (file: seq<byte>)
      ensures this.file == file && fresh(propBuffer)
    {
      this.file := file;
      propBuffer := new byte[0];
      arena := Arena(map[ROOT := Cell(0, 0, 0, EMPTY)], 1);
      at := map[Top := ROOT];
    }

    /** `if (current.children.empty()) current.propsEnd = it`. */
    method MarkCurrent(current: Addr, it: nat, ghost stack: seq<Addr>, ghost paths: seq<Path>, ghost opens: seq<Open>)
      requires StackOk(arena, at, stack, paths, opens) && current == stack[|stack| - 1]
      modifies this`arena
      ensures StackOk(arena, at, stack, paths, opens[|opens| - 1 := Mark(opens[|opens| - 1], it)])
    {
      ghost var marked := MarkTop(arena, at, stack, paths, opens, it);
      hide StackOk;
      if arena.cells[current].children.size == 0 {
        arena := Write(arena, current, arena.cells[current].(propsEnd := it));
      }
    }

    /** `current.children.emplace_back()`, then the new child's fields; returns the child's address. */
    method AppendChild(current: Addr, kind: byte, begin: nat,
                       ghost stack: seq<Addr>, ghost paths: seq<Path>, ghost opens: seq<Open>) returns (child: Addr)
      requires StackOk(arena, at, stack, paths, opens) && current == stack[|stack| - 1]
      modifies this
      ensures StackOk(arena, at, stack + [child], paths + [Child(paths[|paths| - 1], |opens[|opens| - 1].children|)],
                      opens + [Open(kind, begin, 0, [])])
    {
      assert current == at[paths[|paths| - 1]];
      ElementsLive(arena, at, paths[|paths| - 1]);
      var growth: nat := *;
      PushChild(arena, at, stack, paths, opens, growth, kind, begin);
      hide StackOk;
      hide Emplaced;
      hide Relocated;
      at := Relocated(arena, at, paths[|paths| - 1]);
      arena := Emplaced(arena, current, growth);
      child := Back(arena, current);
      arena := Write(arena, child, arena.cells[child].(kind := kind, propsBegin := begin));
    }

    /** The constructor's checks and `parseTree`; the result is false where these throw. */
    method ParseTree(accepted: seq<byte>) returns (ok: bool)
      modifies this
      ensures ok <==> Parse(file, accepted).Ok?
      ensures ok ==> ArenaOk(arena, at) && Stores(arena, at, Top, Parse(file, accepted).value)
    {
      hide StackOk;
      hide ArenaOk;
      hide Stores;
      hide Push;
      hide Pop;
      hide Mark;
      if |file| <= IDENTIFIER_SIZE + 3 {
        return false;
      }
      if file[..IDENTIFIER_SIZE] != accepted && file[..IDENTIFIER_SIZE] != WILDCARD {
        return false;
      }
      var it := IDENTIFIER_SIZE;
      if file[it] != START {
        return false;
      }
      arena := Arena(map[ROOT := Cell(file[5], 6, 0, EMPTY)], 1);
      it := 6;
      var stack := [ROOT];
      at := map[Top := ROOT];
      ghost var paths, opens := [Top], [Open(file[5], 6, 0, [])];
      ghost var root: Option<Node> := None;
      RootOnStack(file[5]);
      while it != |file|
        invariant 6 <= it <= |file|
        invariant Parse(file, accepted) == Scan(file, it, opens, root)
        invariant |stack| == |opens| == |paths|
        invariant stack != [] ==> StackOk(arena, at, stack, paths, opens) && root == None
        invariant stack == [] ==> root.Some? && ArenaOk(arena, at) && Stores(arena, at, Top, root.value)
        decreases |file| - it
      {
        if file[it] == START {
          if stack == [] { return false; }
          var current := stack[|stack| - 1];
          MarkCurrent(current, it, stack, paths, opens);
          ghost var marked := opens[|opens| - 1 := Mark(opens[|opens| - 1], it)];
          if it + 1 == |file| { return false; }
          var child := AppendChild(current, file[it + 1], it + 2, stack, paths, marked);
          PushMarked(opens, it, file[it + 1]);
          paths := paths + [Child(paths[|paths| - 1], |marked[|marked| - 1].children|)];
          opens := Push(opens, it, file[it + 1]);
          stack := stack + [child];
          it := it + 1;
        } else if file[it] == END {
          if stack == [] { return false; }
          var current := stack[|stack| - 1];
          MarkCurrent(current, it, stack, paths, opens);
          ghost var marked := opens[|opens| - 1 := Mark(opens[|opens| - 1], it)];
          PopMarked(opens, it);
          PopChild(arena, at, stack, paths, marked, it);
          root := Pop(opens, it).1;
          opens := Pop(opens, it).0;
          stack := stack[..|stack| - 1];
          paths := paths[..|paths| - 1];
        } else if file[it] == ESCAPE {
          it := it + 1;
          if it == |file| { return false; }
        }
        it := it + 1;
      }
      return stack == [];
    }

    /** Unescapes the properties of `node` into the shared buffer; the result is the view's size. */
    method GetProps(node: Cell) returns (ok: bool, size: nat)
      requires node.propsEnd <= |file|
      modifies this`propBuffer, propBuffer
      ensures ok <==> node.propsBegin < node.propsEnd
      ensures ok ==> size <= propBuffer.Length
                     && propBuffer[..size] == Unescape(file[node.propsBegin..node.propsEnd])
    {
      hide Unescape;
      hide Unescaped;
      var src, srcEnd := node.propsBegin, node.propsEnd;
      if srcEnd <= src {
        return false, 0;
      }
      if propBuffer.Length < srcEnd - src {
        propBuffer := new byte[srcEnd - src];
      }
      var dst := 0;
      ghost var done: seq<byte> := [];
      UnescapeEnds(file, src, srcEnd, []);
      while src < srcEnd
        invariant node.propsBegin <= src <= srcEnd
        invariant propBuffer == old(propBuffer) || fresh(propBuffer)
        invariant dst <= src - node.propsBegin && srcEnd - node.propsBegin <= propBuffer.Length
        invariant propBuffer[..dst] == done && Unescaped(file, node.propsBegin, src, srcEnd, done)
      {
        UnescapeStep(file, node.propsBegin, src, srcEnd, done);
        if file[src] == ESCAPE {
          src := src + 1;
          if src < srcEnd {
            done := done + [file[src]];
            Put(dst, file[src]);
            dst, src := dst + 1, src + 1;
          }
        } else {
          done := done + [file[src]];
          Put(dst, file[src]);
          dst, src := dst + 1, src + 1;
        }
      }
      UnescapeEnds(file, node.propsBegin, srcEnd, done);
      return true, dst;
    }

    /** `*dst = b`. */
    method Put(dst: nat, b: byte)
      requires dst < propBuffer.Length
      modifies propBuffer
      ensures propBuffer[..dst + 1] == old(propBuffer[..dst]) + [b]
    {
      propBuffer[dst] := b;
    }
  }
}
