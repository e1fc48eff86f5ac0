/** The OTB tree format of src/fileloader.h and src/fileloader.cpp: what the loader's parser does,
    byte by byte, and the language of files it accepts. */
module Otb {
  import opened Options
  import opened Words

  const ESCAPE: byte := 0xFD
  const START: byte := 0xFE
  const END: byte := 0xFF

  const IDENTIFIER_SIZE: nat := 4
  const WILDCARD: seq<byte> := [0, 0, 0, 0]

  datatype Result<+T> = Ok(value: T) | InvalidFormat

  /** A parsed node; the property range is a pair of positions in the file. */
  datatype Node = Node(kind: byte, propsBegin: nat, propsEnd: nat, children: seq<Node>)

  // ---------------------------------------------------------------- the parser's state machine

  /** A node on the parse stack. `propsEnd` means nothing until the first child or the end. */
  datatype Open = Open(kind: byte, propsBegin: nat, propsEnd: nat, children: seq<Node>)

  function Mark(o: Open, it: nat): Open {
    if o.children == [] then o.(propsEnd := it) else o
  }

  function Close(o: Open): Node {
    Node(o.kind, o.propsBegin, o.propsEnd, o.children)
  }

  /** The stack without its top, which becomes the newest child of the node below. */
  function Pop(stack: seq<Open>, it: nat): (seq<Open>, Option<Node>)
    requires stack != []
  {
    var n := |stack|;
    var node := Close(Mark(stack[n - 1], it));
    if n == 1 then ([], Some(node))
    else (stack[..n - 2] + [stack[n - 2].(children := stack[n - 2].children + [node])], None)
  }

  function Push(stack: seq<Open>, it: nat, kind: byte): seq<Open>
    requires stack != []
  {
    var n := |stack|;
    stack[..n - 1] + [Mark(stack[n - 1], it), Open(kind, it + 2, 0, [])]
  }

  /** The loop of `parseTree` from position `it`. `root` is set once the stack has emptied. */
  function Scan(file: seq<byte>, it: nat, stack: seq<Open>, root: Option<Node>): Result<Node>
    requires it <= |file|
    decreases |file| - it
  {
    if it == |file| then
      if stack == [] && root.Some? then Ok(root.value) else InvalidFormat
    else if file[it] == START then
      if stack == [] || it + 1 == |file| then InvalidFormat
      else Scan(file, it + 2, Push(stack, it, file[it + 1]), root)
    else if file[it] == END then
      if stack == [] then InvalidFormat
      else
        var (below, node) := Pop(stack, it);
        Scan(file, it + 1, below, node)
    else if file[it] == ESCAPE then
      if it + 1 == |file| then InvalidFormat else Scan(file, it + 2, stack, root)
    else Scan(file, it + 1, stack, root)
  }

  /** The checks of the `Loader` constructor followed by `parseTree`. */
  function Parse(file: seq<byte>, accepted: seq<byte>): Result<Node> {
    if |file| <= IDENTIFIER_SIZE + 3 then InvalidFormat
    else if file[..IDENTIFIER_SIZE] != accepted && file[..IDENTIFIER_SIZE] != WILDCARD then InvalidFormat
    else if file[4] != START then InvalidFormat
    else Scan(file, 6, [Open(file[5], 6, 0, [])], None)
  }

  // ---------------------------------------------------------------- the format, as a grammar

  /** One property byte as it stands in the file: by itself, or behind an escape byte. */
  datatype Item = Plain(b: byte) | Escaped(b: byte)

  /** A node as written: its properties, then its children, each followed by bytes that belong to nothing. */
  datatype Source = Source(kind: byte, props: seq<Item>, kids: seq<Kid>)
  datatype Kid = Kid(node: Source, junk: seq<Item>)

  predicate ItemsOk(items: seq<Item>) {
    forall i :: 0 <= i < |items| && items[i].Plain? ==> items[i].b < ESCAPE
  }

  predicate SourceOk(s: Source)
    decreases s
  {
    ItemsOk(s.props) && KidsOk(s.kids)
  }

  predicate KidsOk(kids: seq<Kid>)
    decreases kids
  {
    forall i :: 0 <= i < |kids| ==> SourceOk(kids[i].node) && ItemsOk(kids[i].junk)
  }

  function Bytes(items: seq<Item>): seq<byte> {
    if items == [] then []
    else
      var last := items[|items| - 1];
      Bytes(items[..|items| - 1]) + (if last.Plain? then [last.b] else [ESCAPE, last.b])
  }

  function Values(items: seq<Item>): (r: seq<byte>)
    ensures |r| == |items|
  {
    seq(|items|, i requires 0 <= i < |items| => items[i].b)
  }

  function Print(s: Source): seq<byte>
    decreases s
  {
    [START, s.kind] + Bytes(s.props) + PrintKids(s.kids) + [END]
  }

  function PrintKids(kids: seq<Kid>): seq<byte>
    decreases kids
  {
    if kids == [] then []
    else
      var last := kids[|kids| - 1];
      PrintKids(kids[..|kids| - 1]) + Print(last.node) + Bytes(last.junk)
  }

  /** Where the parser finds the parts of a node printed at position `at`. */
  function Layout(s: Source, at: nat): Node
    decreases s
  {
    var body := at + 2 + |Bytes(s.props)|;
    Node(s.kind, at + 2, body, LayoutKids(s.kids, body))
  }

  function LayoutKids(kids: seq<Kid>, at: nat): (r: seq<Node>)
    ensures |r| == |kids|
    decreases kids
  {
    if kids == [] then []
    else
      var front := kids[..|kids| - 1];
      LayoutKids(front, at) + [Layout(kids[|kids| - 1].node, at + |PrintKids(front)|)]
  }

  /** `file` consists of an accepted identifier, a printed node, and bytes that belong to nothing. */
  ghost predicate IsFile(file: seq<byte>, accepted: seq<byte>, s: Source, rest: seq<Item>) {
    && SourceOk(s) && ItemsOk(rest)
    && IDENTIFIER_SIZE <= |file|
    && (file[..IDENTIFIER_SIZE] == accepted || file[..IDENTIFIER_SIZE] == WILDCARD)
    && file[IDENTIFIER_SIZE..] == Print(s) + Bytes(rest)
  }

  // ---------------------------------------------------------------- every printed file is accepted

  /** `part` stands in `file` at position `at`. */
  predicate Holds(file: seq<byte>, at: nat, part: seq<byte>) {
    at + |part| <= |file| && file[at..at + |part|] == part
  }

  lemma HoldsConcat(file: seq<byte>, at: nat, first: seq<byte>, second: seq<byte>)
    ensures Holds(file, at, first + second) <==> Holds(file, at, first) && Holds(file, at + |first|, second)
  {
    if Holds(file, at, first) && Holds(file, at + |first|, second) {
      assert file[at..at + |first + second|] == file[at..at + |first|] + file[at + |first|..at + |first| + |second|];
    }
    if Holds(file, at, first + second) {
      assert file[at..at + |first|] == (first + second)[..|first|];
      assert file[at + |first|..at + |first| + |second|] == (first + second)[|first|..];
    }
  }

  lemma {:induction false} ScanItems(file: seq<byte>, it: nat, items: seq<Item>, stack: seq<Open>, root: Option<Node>)
    requires ItemsOk(items) && Holds(file, it, Bytes(items))
    ensures Scan(file, it, stack, root) == Scan(file, it + |Bytes(items)|, stack, root)
  {
    if items == [] {
    } else {
      var front, last := items[..|items| - 1], items[|items| - 1];
      var tail := if last.Plain? then [last.b] else [ESCAPE, last.b];
      HoldsConcat(file, it, Bytes(front), tail);
      ScanItems(file, it, front, stack, root);
      var at := it + |Bytes(front)|;
      assert file[at..at + |tail|][0] == file[at];
    }
  }

  /** The stack after a child printed at `at` has come and gone. */
  function Adopt(stack: seq<Open>, at: nat, node: Node): seq<Open>
    requires stack != []
  {
    var n := |stack|;
    var top := Mark(stack[n - 1], at);
    stack[..n - 1] + [top.(children := top.children + [node])]
  }

  /** The stack after several children; `first` is where the first of them starts. */
  function AdoptAll(stack: seq<Open>, at: nat, nodes: seq<Node>): seq<Open>
    requires stack != []
  {
    if nodes == [] then stack
    else
      var n := |stack|;
      var top := Mark(stack[n - 1], at);
      stack[..n - 1] + [top.(children := top.children + nodes)]
  }

  lemma AdoptOneMore(stack: seq<Open>, at: nat, nodes: seq<Node>, mid: nat, node: Node)
    requires stack != [] && stack[|stack| - 1].children == [] && at <= mid && (nodes == [] ==> mid == at)
    ensures Adopt(AdoptAll(stack, at, nodes), mid, node) == AdoptAll(stack, at, nodes + [node])
  {
    var n := |stack|;
    assert stack[n - 1].children + nodes == nodes;
    assert stack[n - 1].children + (nodes + [node]) == nodes + [node];
    if nodes != [] {
      var some := AdoptAll(stack, at, nodes);
      assert some[..n - 1] == stack[..n - 1];
    } else {
      assert nodes + [node] == [node];
    }
  }

  lemma PushThenPop(stack: seq<Open>, at: nat, kind: byte, body: nat, nodes: seq<Node>, stop: nat)
    requires stack != [] && (nodes == [] ==> body == stop)
    ensures var full := AdoptAll(Push(stack, at, kind), body, nodes);
            Pop(full, stop) == (Adopt(stack, at, Node(kind, at + 2, body, nodes)), None)
  {
    var n := |stack|;
    var pushed := Push(stack, at, kind);
    var full := AdoptAll(pushed, body, nodes);
    assert full[..n - 1] == stack[..n - 1];
    assert full[n - 1] == Mark(stack[n - 1], at);
    assert [] + nodes == nodes;
    assert Close(Mark(full[n], stop)) == Node(kind, at + 2, body, nodes);
  }

  /** One byte of the scan that opens a node, and one that closes one. */
  lemma ScanMarkers(file: seq<byte>, it: nat, stack: seq<Open>)
    requires it < |file| && stack != []
    ensures file[it] == START && it + 1 < |file| ==>
              Scan(file, it, stack, None) == Scan(file, it + 2, Push(stack, it, file[it + 1]), None)
    ensures file[it] == END ==> Scan(file, it, stack, None) == Scan(file, it + 1, Pop(stack, it).0, Pop(stack, it).1)
  {
  }

  /** Where the parts of a printed node stand. */
  lemma PrintParts(file: seq<byte>, at: nat, s: Source)
    requires Holds(file, at, Print(s))
    ensures at + |Print(s)| <= |file| && file[at] == START && file[at + 1] == s.kind
    ensures Holds(file, at + 2, Bytes(s.props))
    ensures Holds(file, at + 2 + |Bytes(s.props)|, PrintKids(s.kids))
    ensures |Print(s)| == 3 + |Bytes(s.props)| + |PrintKids(s.kids)|
    ensures file[at + |Print(s)| - 1] == END
  {
    var head, props, kids := [START, s.kind], Bytes(s.props), PrintKids(s.kids);
    HoldsConcat(file, at, head + props + kids, [END]);
    HoldsConcat(file, at, head + props, kids);
    HoldsConcat(file, at, head, props);
    assert file[at..at + 2][0] == START && file[at..at + 2][1] == s.kind;
    var stop := at + |Print(s)| - 1;
    assert file[stop..stop + 1][0] == END;
  }

  lemma PartsOk(s: Source)
    requires SourceOk(s)
    ensures ItemsOk(s.props) && KidsOk(s.kids)
  {
  }

  lemma LastOk(kids: seq<Kid>)
    requires KidsOk(kids) && kids != []
    ensures KidsOk(kids[..|kids| - 1]) && SourceOk(kids[|kids| - 1].node) && ItemsOk(kids[|kids| - 1].junk)
  {
  }

  lemma LayoutParts(s: Source, at: nat)
    ensures var body := at + 2 + |Bytes(s.props)|;
            Layout(s, at) == Node(s.kind, at + 2, body, LayoutKids(s.kids, body))
  {
  }

  /** From behind the two opening bytes of a node to its end byte. */
  lemma {:induction false} ScanInside(file: seq<byte>, at: nat, s: Source, stack: seq<Open>)
    requires SourceOk(s) && stack != [] && stack[|stack| - 1].children == [] && Holds(file, at, Print(s))
    ensures var body := at + 2 + |Bytes(s.props)|;
            Scan(file, at + 2, stack, None)
            == Scan(file, at + |Print(s)| - 1, AdoptAll(stack, body, LayoutKids(s.kids, body)), None)
    decreases s, 0
  {
    hide ItemsOk;
    hide KidsOk;
    hide SourceOk;
    hide Scan;
    hide Print;
    hide Layout;
    hide LayoutKids;
    hide PrintKids;
    hide Bytes;
    hide Holds;
    hide AdoptAll;
    PrintParts(file, at, s);
    PartsOk(s);
    ScanItems(file, at + 2, s.props, stack, None);
    ScanKids(file, at + 2 + |Bytes(s.props)|, s.kids, stack);
  }

  lemma {:induction false} ScanNode(file: seq<byte>, at: nat, s: Source, stack: seq<Open>)
    requires SourceOk(s) && stack != [] && Holds(file, at, Print(s))
    ensures Scan(file, at, stack, None) == Scan(file, at + |Print(s)|, Adopt(stack, at, Layout(s, at)), None)
    decreases s, 1
  {
    hide SourceOk;
    hide Scan;
    hide Print;
    hide LayoutKids;
    hide PrintKids;
    hide Layout;
    hide Bytes;
    hide Holds;
    hide Pop;
    hide AdoptAll;
    PrintParts(file, at, s);
    LayoutParts(s, at);
    var pushed, body := Push(stack, at, s.kind), at + 2 + |Bytes(s.props)|;
    ScanMarkers(file, at, stack);
    ScanInside(file, at, s, pushed);
    AdoptedNotEmpty(pushed, body, LayoutKids(s.kids, body));
    ScanMarkers(file, at + |Print(s)| - 1, AdoptAll(pushed, body, LayoutKids(s.kids, body)));
    EmptyKids(s.kids, body, pushed);
    PushThenPop(stack, at, s.kind, body, LayoutKids(s.kids, body), at + |Print(s)| - 1);
  }

  lemma {:induction false} ScanKids(file: seq<byte>, at: nat, kids: seq<Kid>, stack: seq<Open>)
    requires KidsOk(kids) && stack != [] && stack[|stack| - 1].children == [] && Holds(file, at, PrintKids(kids))
    ensures Scan(file, at, stack, None)
            == Scan(file, at + |PrintKids(kids)|, AdoptAll(stack, at, LayoutKids(kids, at)), None)
    decreases kids, 0
  {
    hide Scan;
    hide ItemsOk;
    hide KidsOk;
    hide SourceOk;
    hide Print;
    hide PrintKids;
    hide Layout;
    hide LayoutKids;
    hide Bytes;
    hide Holds;
    hide AdoptAll;
    hide Adopt;
    EmptyKids(kids, at, stack);
    if kids == [] {
    } else {
      var front, last := kids[..|kids| - 1], kids[|kids| - 1];
      LastOk(kids);
      LayoutKidsStep(kids, at);
      PrintKidsStep(kids);
      HoldsConcat(file, at, PrintKids(front) + Print(last.node), Bytes(last.junk));
      HoldsConcat(file, at, PrintKids(front), Print(last.node));
      ScanKids(file, at, front, stack);
      AdoptedNotEmpty(stack, at, LayoutKids(front, at));
      var mid := at + |PrintKids(front)|;
      var some := AdoptAll(stack, at, LayoutKids(front, at));
      ScanNode(file, mid, last.node, some);
      EmptyKids(front, at, stack);
      AdoptOneMore(stack, at, LayoutKids(front, at), mid, Layout(last.node, mid));
      var more := AdoptAll(stack, at, LayoutKids(kids, at));
      ScanItems(file, mid + |Print(last.node)|, last.junk, more, None);
    }
  }

  lemma AdoptedNotEmpty(stack: seq<Open>, at: nat, nodes: seq<Node>)
    requires stack != []
    ensures AdoptAll(stack, at, nodes) != []
  {
  }

  lemma LayoutKidsStep(kids: seq<Kid>, at: nat)
    requires kids != []
    ensures var front, last := kids[..|kids| - 1], kids[|kids| - 1];
            LayoutKids(kids, at) == LayoutKids(front, at) + [Layout(last.node, at + |PrintKids(front)|)]
  {
  }

  lemma PrintKidsStep(kids: seq<Kid>)
    requires kids != []
    ensures var front, last := kids[..|kids| - 1], kids[|kids| - 1];
            PrintKids(kids) == PrintKids(front) + Print(last.node) + Bytes(last.junk)
  {
  }

  lemma EmptyKids(kids: seq<Kid>, at: nat, stack: seq<Open>)
    requires stack != []
    ensures LayoutKids(kids, at) == [] <==> kids == []
    ensures kids == [] ==> PrintKids(kids) == [] && AdoptAll(stack, at, LayoutKids(kids, at)) == stack
  {
  }

  lemma PopRoot(kind: byte, at: nat, body: nat, nodes: seq<Node>, stop: nat)
    requires nodes == [] ==> body == stop
    ensures Pop(AdoptAll([Open(kind, at + 2, 0, [])], body, nodes), stop) == ([], Some(Node(kind, at + 2, body, nodes)))
  {
    assert [] + nodes == nodes;
  }

  lemma ScanRoot(file: seq<byte>, at: nat, s: Source, rest: seq<Item>)
    requires SourceOk(s) && ItemsOk(rest) && Holds(file, at, Print(s))
    requires Holds(file, at + |Print(s)|, Bytes(rest)) && |file| == at + |Print(s)| + |Bytes(rest)|
    ensures Scan(file, at + 2, [Open(s.kind, at + 2, 0, [])], None) == Ok(Layout(s, at))
  {
    hide SourceOk;
    hide ItemsOk;
    hide Scan;
    hide Print;
    hide LayoutKids;
    hide PrintKids;
    hide Layout;
    hide Bytes;
    hide Holds;
    hide AdoptAll;
    hide Pop;
    PrintParts(file, at, s);
    LayoutParts(s, at);
    var root, body, stop := [Open(s.kind, at + 2, 0, [])], at + 2 + |Bytes(s.props)|, at + |Print(s)| - 1;
    ScanInside(file, at, s, root);
    AdoptedNotEmpty(root, body, LayoutKids(s.kids, body));
    ScanMarkers(file, stop, AdoptAll(root, body, LayoutKids(s.kids, body)));
    EmptyKids(s.kids, body, root);
    PopRoot(s.kind, at, body, LayoutKids(s.kids, body), stop);
    ScanItems(file, stop + 1, rest, [], Some(Layout(s, at)));
    ScanEnds(file, Layout(s, at));
  }

  lemma ScanEnds(file: seq<byte>, n: Node)
    ensures Scan(file, |file|, [], Some(n)) == Ok(n)
  {
  }

  /** Every printed file is accepted, except the seven-byte one the constructor turns away. */
  lemma PrintedIsAccepted(file: seq<byte>, accepted: seq<byte>, s: Source, rest: seq<Item>)
    requires IsFile(file, accepted, s, rest)
    ensures Parse(file, accepted)
            == if s.props == [] && s.kids == [] && rest == [] then InvalidFormat else Ok(Layout(s, IDENTIFIER_SIZE))
  {
    hide Scan;
    var at := IDENTIFIER_SIZE;
    assert file[at..at + |file[at..]|] == file[at..];
    HoldsConcat(file, at, Print(s), Bytes(rest));
    PrintParts(file, at, s);
    SizeIsSeven(s, rest);
    assert |file| == at + |Print(s)| + |Bytes(rest)|;
    ScanRoot(file, at, s, rest);
  }

  lemma SizeIsSeven(s: Source, rest: seq<Item>)
    ensures |Print(s)| + |Bytes(rest)| >= 3
    ensures |Print(s)| + |Bytes(rest)| == 3 <==> s.props == [] && s.kids == [] && rest == []
  {
    if s.kids != [] {
      assert |Print(s.kids[|s.kids| - 1].node)| >= 3;
    }
  }

  // ---------------------------------------------------------------- only printed files are accepted

  /** A node starting at `at` of which the parser has seen a beginning. */
  datatype Partial = Partial(at: nat, kind: byte, props: seq<Item>, kids: seq<Kid>) {
    function Print(): seq<byte> {
      [START, kind] + Bytes(props) + PrintKids(kids)
    }

    function Body(): nat {
      at + 2 + |Bytes(props)|
    }

    function Stop(): nat {
      at + |Print()|
    }

    /** One more property byte, or byte that belongs to nothing. */
    function Add(item: Item): Partial {
      if kids == [] then this.(props := props + [item])
      else
        var last := kids[|kids| - 1];
        this.(kids := kids[..|kids| - 1] + [last.(junk := last.junk + [item])])
    }
  }

  ghost predicate PartialOk(file: seq<byte>, p: Partial) {
    ItemsOk(p.props) && KidsOk(p.kids) && Holds(file, p.at, p.Print())
  }

  /** Stack entry `o` describes `p`; an entry with something above it is marked. */
  ghost predicate Describes(o: Open, p: Partial, marked: bool) {
    && o.kind == p.kind
    && o.propsBegin == p.at + 2
    && o.children == LayoutKids(p.kids, p.Body())
    && (p.kids != [] || marked ==> o.propsEnd == p.Body())
  }

  ghost predicate Tracks(file: seq<byte>, it: nat, ps: seq<Partial>, stack: seq<Open>) {
    && |ps| == |stack| > 0
    && ps[0].at == IDENTIFIER_SIZE
    && (forall i :: 0 <= i < |ps| ==> PartialOk(file, ps[i]) && Describes(stack[i], ps[i], i < |ps| - 1))
    && (forall i :: 0 < i < |ps| ==> ps[i].at == ps[i - 1].Stop())
    && it == ps[|ps| - 1].Stop() <= |file|
  }

  lemma BytesSnoc(items: seq<Item>, item: Item)
    ensures Bytes(items + [item]) == Bytes(items) + (if item.Plain? then [item.b] else [ESCAPE, item.b])
  {
    assert (items + [item])[..|items|] == items;
  }

  lemma PrintKidsSnoc(kids: seq<Kid>, kid: Kid)
    ensures PrintKids(kids + [kid]) == PrintKids(kids) + Print(kid.node) + Bytes(kid.junk)
  {
    assert (kids + [kid])[..|kids|] == kids;
  }

  lemma LayoutKidsSnoc(kids: seq<Kid>, kid: Kid, at: nat)
    ensures LayoutKids(kids + [kid], at) == LayoutKids(kids, at) + [Layout(kid.node, at + |PrintKids(kids)|)]
  {
    assert (kids + [kid])[..|kids|] == kids;
  }

  lemma AddPrints(p: Partial, item: Item)
    ensures p.Add(item).Print() == p.Print() + (if item.Plain? then [item.b] else [ESCAPE, item.b])
    ensures p.kids == [] ==> p.Add(item).kids == []
    ensures p.kids != [] ==> p.Add(item).kids != [] && p.Add(item).Body() == p.Body()
    ensures LayoutKids(p.Add(item).kids, p.Add(item).Body()) == LayoutKids(p.kids, p.Body())
  {
    if p.kids == [] {
      BytesSnoc(p.props, item);
    } else {
      AddJunkPrints(p, item);
    }
  }

  lemma AddJunkPrints(p: Partial, item: Item)
    requires p.kids != []
    ensures p.Add(item).Print() == p.Print() + (if item.Plain? then [item.b] else [ESCAPE, item.b])
    ensures p.Add(item).kids != [] && p.Add(item).Body() == p.Body()
    ensures LayoutKids(p.Add(item).kids, p.Add(item).Body()) == LayoutKids(p.kids, p.Body())
  {
    hide Layout;
    hide Print;
    hide LayoutKids;
    hide PrintKids;
    hide Bytes;
    var front, last := p.kids[..|p.kids| - 1], p.kids[|p.kids| - 1];
    var more := last.(junk := last.junk + [item]);
    assert p.kids == front + [last];
    BytesSnoc(last.junk, item);
    PrintKidsSnoc(front, more);
    PrintKidsSnoc(front, last);
    LayoutKidsSnoc(front, more, p.Body());
    LayoutKidsSnoc(front, last, p.Body());
  }

  lemma AddKeepsOk(file: seq<byte>, p: Partial, item: Item)
    requires PartialOk(file, p) && ItemsOk([item])
    requires Holds(file, p.Stop(), if item.Plain? then [item.b] else [ESCAPE, item.b])
    ensures PartialOk(file, p.Add(item))
  {
    hide Bytes;
    hide PrintKids;
    AddPrints(p, item);
    HoldsConcat(file, p.at, p.Print(), if item.Plain? then [item.b] else [ESCAPE, item.b]);
    assert [item][0] == item;
  }

  lemma TrackItem(file: seq<byte>, it: nat, ps: seq<Partial>, stack: seq<Open>, item: Item)
    returns (ps': seq<Partial>)
    requires Tracks(file, it, ps, stack) && ItemsOk([item])
    requires Holds(file, it, if item.Plain? then [item.b] else [ESCAPE, item.b])
    ensures Tracks(file, it + (if item.Plain? then 1 else 2), ps', stack)
  {
    hide Bytes;
    hide PrintKids;
    hide LayoutKids;
    var n := |ps|;
    AddKeepsOk(file, ps[n - 1], item);
    AddPrints(ps[n - 1], item);
    ps' := ps[n - 1 := ps[n - 1].Add(item)];
  }

  lemma FreshPartial(file: seq<byte>, p: Partial)
    requires p.props == [] && p.kids == [] && p.at + 2 <= |file| && file[p.at] == START && file[p.at + 1] == p.kind
    ensures PartialOk(file, p) && p.Stop() == p.Body() == p.at + 2
    ensures Describes(Open(p.kind, p.at + 2, 0, []), p, false)
  {
    assert p.Print() == [START, p.kind];
  }

  lemma ChildlessStop(p: Partial)
    ensures p.kids == [] ==> p.Stop() == p.Body()
  {
  }

  lemma TrackPush(file: seq<byte>, it: nat, ps: seq<Partial>, stack: seq<Open>) returns (ps': seq<Partial>)
    requires Tracks(file, it, ps, stack)
    requires it + 1 < |file| && file[it] == START
    ensures Tracks(file, it + 2, ps', Push(stack, it, file[it + 1]))
  {
    hide Bytes;
    hide PrintKids;
    hide LayoutKids;
    var n := |ps|;
    var p := Partial(it, file[it + 1], [], []);
    FreshPartial(file, p);
    ps' := ps + [p];
    ChildlessStop(ps[n - 1]);
    assert Describes(Mark(stack[n - 1], it), ps[n - 1], true);
  }

  function Finish(p: Partial): Source {
    Source(p.kind, p.props, p.kids)
  }

  /** The end byte turns a partial node into a printed one, laid out as the parser says. */
  lemma FinishPrints(file: seq<byte>, p: Partial, o: Open)
    requires PartialOk(file, p) && Describes(o, p, false) && p.Stop() < |file| && file[p.Stop()] == END
    ensures SourceOk(Finish(p)) && Print(Finish(p)) == p.Print() + [END]
    ensures Holds(file, p.at, Print(Finish(p)))
    ensures Close(Mark(o, p.Stop())) == Layout(Finish(p), p.at)
  {
    var stop := p.Stop();
    assert file[stop..stop + 1] == [END];
    HoldsConcat(file, p.at, p.Print(), [END]);
    assert p.kids == [] ==> stop == p.Body();
  }

  lemma NoBytes()
    ensures Bytes([]) == [] && ItemsOk([])
  {
  }

  lemma AddKid(file: seq<byte>, p: Partial, o: Open, s: Source)
    requires PartialOk(file, p) && Describes(o, p, true) && SourceOk(s) && Holds(file, p.Stop(), Print(s))
    ensures var p' := p.(kids := p.kids + [Kid(s, [])]);
            && PartialOk(file, p') && p'.Stop() == p.Stop() + |Print(s)|
            && Describes(o.(children := o.children + [Layout(s, p.Stop())]), p', true)
  {
    hide Print;
    hide Layout;
    hide Bytes;
    hide PrintKids;
    hide LayoutKids;
    var kid := Kid(s, []);
    PrintKidsSnoc(p.kids, kid);
    LayoutKidsSnoc(p.kids, kid, p.Body());
    var p' := p.(kids := p.kids + [kid]);
    NoBytes();
    assert p'.Print() == p.Print() + Print(s);
    HoldsConcat(file, p.at, p.Print(), Print(s));
  }

  lemma TrackPop(file: seq<byte>, it: nat, ps: seq<Partial>, stack: seq<Open>) returns (ps': seq<Partial>)
    requires Tracks(file, it, ps, stack) && |ps| > 1
    requires it < |file| && file[it] == END
    ensures Tracks(file, it + 1, ps', Pop(stack, it).0) && Pop(stack, it).1 == None
  {
    hide Bytes;
    hide PrintKids;
    hide LayoutKids;
    hide Print;
    hide Layout;
    var n := |ps|;
    FinishPrints(file, ps[n - 1], stack[n - 1]);
    AddKid(file, ps[n - 2], stack[n - 2], Finish(ps[n - 1]));
    ps' := ps[..n - 2] + [ps[n - 2].(kids := ps[n - 2].kids + [Kid(Finish(ps[n - 1]), [])])];
  }

  /** What follows the root node can only be bytes that belong to nothing. */
  lemma {:induction false} ScanRest(file: seq<byte>, it: nat, root: Node, n: Node) returns (rest: seq<Item>)
    requires it <= |file| && Scan(file, it, [], Some(root)) == Ok(n)
    ensures n == root && ItemsOk(rest) && file[it..] == Bytes(rest)
    decreases |file| - it
  {
    if it == |file| {
      rest := [];
    } else {
      var item := if file[it] == ESCAPE then Escaped(file[it + 1]) else Plain(file[it]);
      var size := if file[it] == ESCAPE then 2 else 1;
      rest := ScanRest(file, it + size, root, n);
      BytesCons(item, rest);
      assert file[it..] == file[it..it + size] + file[it + size..];
      rest := [item] + rest;
    }
  }

  lemma {:induction false} BytesCons(item: Item, items: seq<Item>)
    ensures Bytes([item] + items) == (if item.Plain? then [item.b] else [ESCAPE, item.b]) + Bytes(items)
  {
    if items == [] {
      assert [item] + items == [] + [item];
      BytesSnoc([], item);
    } else {
      var front, last := items[..|items| - 1], items[|items| - 1];
      BytesCons(item, front);
      assert [item] + items == ([item] + front) + [last];
      BytesSnoc([item] + front, last);
    }
  }

  lemma {:induction false} ScanIsPrinted(file: seq<byte>, it: nat, ps: seq<Partial>, stack: seq<Open>, n: Node)
    returns (s: Source, rest: seq<Item>)
    requires Tracks(file, it, ps, stack) && Scan(file, it, stack, None) == Ok(n)
    ensures SourceOk(s) && ItemsOk(rest) && file[IDENTIFIER_SIZE..] == Print(s) + Bytes(rest)
    ensures n == Layout(s, IDENTIFIER_SIZE)
    decreases |file| - it
  {
    hide Bytes;
    hide Print;
    hide PrintKids;
    hide Layout;
    hide LayoutKids;
    hide SourceOk;
    hide Push;
    hide PartialOk;
    hide Describes;
    if file[it] == START {
      var ps' := TrackPush(file, it, ps, stack);
      s, rest := ScanIsPrinted(file, it + 2, ps', Push(stack, it, file[it + 1]), n);
    } else if file[it] == END {
      if |ps| > 1 {
        var ps' := TrackPop(file, it, ps, stack);
        s, rest := ScanIsPrinted(file, it + 1, ps', Pop(stack, it).0, n);
      } else {
        FinishPrints(file, ps[0], stack[0]);
        s := Finish(ps[0]);
        rest := ScanRest(file, it + 1, Layout(s, IDENTIFIER_SIZE), n);
        assert file[IDENTIFIER_SIZE..] == file[IDENTIFIER_SIZE..it + 1] + file[it + 1..];
      }
    } else {
      var item := if file[it] == ESCAPE then Escaped(file[it + 1]) else Plain(file[it]);
      var ps' := TrackItem(file, it, ps, stack, item);
      s, rest := ScanIsPrinted(file, it + (if item.Plain? then 1 else 2), ps', stack, n);
    }
  }

  /** The loader accepts exactly the files of the grammar that are longer than seven bytes, and
      what it builds is the layout of the one printed node. */
  lemma AcceptedIff(file: seq<byte>, accepted: seq<byte>, n: Node)
    ensures Parse(file, accepted) == Ok(n)
            <==> |file| > IDENTIFIER_SIZE + 3
                 && exists s, rest :: IsFile(file, accepted, s, rest) && n == Layout(s, IDENTIFIER_SIZE)
  {
    if Parse(file, accepted) == Ok(n) {
      var p := Partial(IDENTIFIER_SIZE, file[5], [], []);
      FreshPartial(file, p);
      var s, rest := ScanIsPrinted(file, 6, [p], [Open(file[5], 6, 0, [])], n);
      assert IsFile(file, accepted, s, rest);
    }
    if |file| > IDENTIFIER_SIZE + 3
       && exists s, rest :: IsFile(file, accepted, s, rest) && n == Layout(s, IDENTIFIER_SIZE)
    {
      var s, rest :| IsFile(file, accepted, s, rest) && n == Layout(s, IDENTIFIER_SIZE);
      PrintedIsAccepted(file, accepted, s, rest);
      SizeIsSeven(s, rest);
    }
  }

  // ---------------------------------------------------------------- properties, unescaped

  /** What `getProps` makes of a property range; a trailing escape byte yields nothing. */
  function Unescape(raw: seq<byte>): seq<byte> {
    if raw == [] then []
    else if raw[0] == ESCAPE then (if |raw| == 1 then [] else [raw[1]] + Unescape(raw[2..]))
    else [raw[0]] + Unescape(raw[1..])
  }

  lemma {:induction false} UnescapeBytes(items: seq<Item>)
    requires ItemsOk(items)
    ensures Unescape(Bytes(items)) == Values(items)
  {
    if items == [] {
    } else {
      assert items == [items[0]] + items[1..];
      BytesCons(items[0], items[1..]);
      UnescapeBytes(items[1..]);
      var raw := Bytes(items);
      if items[0].Plain? {
        assert raw[1..] == Bytes(items[1..]);
      } else {
        assert raw[2..] == Bytes(items[1..]);
      }
      assert Values(items) == [items[0].b] + Values(items[1..]);
    }
  }

  /** A node with its properties as a reader of the file sees them. */
  datatype Tree = Tree(kind: byte, props: seq<byte>, children: seq<Tree>)

  predicate Inside(file: seq<byte>, n: Node)
    decreases n
  {
    n.propsBegin <= n.propsEnd <= |file| && forall i :: 0 <= i < |n.children| ==> Inside(file, n.children[i])
  }

  function Decode(file: seq<byte>, n: Node): Tree
    requires Inside(file, n)
    decreases n
  {
    Tree(n.kind, Unescape(file[n.propsBegin..n.propsEnd]),
         seq(|n.children|, i requires 0 <= i < |n.children| => Decode(file, n.children[i])))
  }

  /** A printed node without its spelling. */
  function Meaning(s: Source): Tree
    decreases s
  {
    Tree(s.kind, Values(s.props), Meanings(s.kids))
  }

  function Meanings(kids: seq<Kid>): (r: seq<Tree>)
    ensures |r| == |kids|
    decreases kids
  {
    seq(|kids|, i requires 0 <= i < |kids| => Meaning(kids[i].node))
  }

  /** The properties of node `i` start behind those of the node before it, or behind `from`. */
  predicate StartsAfter(nodes: seq<Node>, i: nat, from: nat)
    requires i < |nodes|
  {
    (if i == 0 then from else nodes[i - 1].propsEnd) < nodes[i].propsBegin
  }

  /** The properties of `n` are zero or more whole items, and nested nodes lie behind them in order. */
  ghost predicate RangeOk(file: seq<byte>, n: Node)
    decreases n
  {
    && n.propsBegin <= n.propsEnd <= |file|
    && (exists items :: ItemsOk(items) && file[n.propsBegin..n.propsEnd] == Bytes(items))
    && (forall i :: 0 <= i < |n.children| ==> RangeOk(file, n.children[i]))
    && (forall i :: 0 <= i < |n.children| ==> StartsAfter(n.children, i, n.propsEnd))
  }

  lemma {:induction false} LayoutDecodes(file: seq<byte>, s: Source, at: nat)
    requires SourceOk(s) && Holds(file, at, Print(s))
    ensures Inside(file, Layout(s, at)) && Decode(file, Layout(s, at)) == Meaning(s)
    ensures RangeOk(file, Layout(s, at)) && Layout(s, at).propsBegin == at + 2
    ensures Layout(s, at).propsEnd < at + |Print(s)|
    decreases s, 0
  {
    hide Print;
    hide PrintKids;
    hide Bytes;
    hide LayoutKids;
    hide Unescape;
    PrintParts(file, at, s);
    var body := at + 2 + |Bytes(s.props)|;
    UnescapeBytes(s.props);
    LayoutKidsDecode(file, s.kids, body);
    var n := Layout(s, at);
    assert ItemsOk(s.props) && file[n.propsBegin..n.propsEnd] == Bytes(s.props);
    assert Decode(file, n).children == Meaning(s).children;
  }

  lemma {:induction false} LayoutKidsDecode(file: seq<byte>, kids: seq<Kid>, at: nat)
    requires KidsOk(kids) && Holds(file, at, PrintKids(kids))
    ensures forall i :: 0 <= i < |kids| ==>
      var n := LayoutKids(kids, at)[i];
      Inside(file, n) && Decode(file, n) == Meaning(kids[i].node) && RangeOk(file, n)
    ensures forall i :: 0 <= i < |kids| ==> StartsAfter(LayoutKids(kids, at), i, at)
    ensures kids != [] ==> LayoutKids(kids, at)[|kids| - 1].propsEnd < at + |PrintKids(kids)|
    decreases kids, 0
  {
    hide Print;
    hide Bytes;
    hide Layout;
    hide RangeOk;
    hide Decode;
    hide Inside;
    hide Meaning;
    if kids == [] {
    } else {
      var front, last := kids[..|kids| - 1], kids[|kids| - 1];
      HoldsConcat(file, at, PrintKids(front) + Print(last.node), Bytes(last.junk));
      HoldsConcat(file, at, PrintKids(front), Print(last.node));
      LayoutKidsDecode(file, front, at);
      LayoutDecodes(file, last.node, at + |PrintKids(front)|);
      assert LayoutKids(kids, at) == LayoutKids(front, at) + [Layout(last.node, at + |PrintKids(front)|)];
      forall i | 0 <= i < |kids| ensures
        var n := LayoutKids(kids, at)[i];
        Inside(file, n) && Decode(file, n) == Meaning(kids[i].node) && RangeOk(file, n)
      {
        if i < |front| { assert front[i] == kids[i] && LayoutKids(kids, at)[i] == LayoutKids(front, at)[i]; }
      }
      forall i | 0 <= i < |kids| ensures StartsAfter(LayoutKids(kids, at), i, at) {
        if i < |front| { assert StartsAfter(LayoutKids(front, at), i, at); }
      }
    }
  }

  /** Every property range of an accepted file is well ordered and made of whole escape pairs and
      unescaped bytes, and what the loader reads is what was written. */
  lemma AcceptedDecodes(file: seq<byte>, accepted: seq<byte>, n: Node) returns (s: Source, rest: seq<Item>)
    requires Parse(file, accepted) == Ok(n)
    ensures IsFile(file, accepted, s, rest) && n == Layout(s, IDENTIFIER_SIZE)
    ensures RangeOk(file, n) && Inside(file, n) && Decode(file, n) == Meaning(s)
  {
    AcceptedIff(file, accepted, n);
    s, rest :| IsFile(file, accepted, s, rest) && n == Layout(s, IDENTIFIER_SIZE);
    assert file[IDENTIFIER_SIZE..IDENTIFIER_SIZE + |file[IDENTIFIER_SIZE..]|] == file[IDENTIFIER_SIZE..];
    HoldsConcat(file, IDENTIFIER_SIZE, Print(s), Bytes(rest));
    LayoutDecodes(file, s, IDENTIFIER_SIZE);
  }

  // ---------------------------------------------------------------- round trip

  /** The shortest spelling: only the three control bytes are escaped. */
  function Escape(props: seq<byte>): (r: seq<Item>)
    ensures |r| == |props|
  {
    seq(|props|, i requires 0 <= i < |props| => if props[i] >= ESCAPE then Escaped(props[i]) else Plain(props[i]))
  }

  function Spell(t: Tree): Source
    decreases t
  {
    Source(t.kind, Escape(t.props), seq(|t.children|, i requires 0 <= i < |t.children| => Kid(Spell(t.children[i]), [])))
  }

  lemma {:induction false} SpellMeans(t: Tree)
    ensures SourceOk(Spell(t)) && Meaning(Spell(t)) == t
    decreases t
  {
    assert Values(Escape(t.props)) == t.props;
    forall i | 0 <= i < |t.children| ensures SourceOk(Spell(t.children[i])) && Meaning(Spell(t.children[i])) == t.children[i] {
      SpellMeans(t.children[i]);
    }
  }

  /** Writing any tree and loading it gives the tree back; the one exception is a root without
      properties and children, whose file is too short for the constructor. */
  lemma RoundTrip(t: Tree, identifier: seq<byte>)
    requires |identifier| == IDENTIFIER_SIZE
    ensures var file := identifier + Print(Spell(t));
            if t.props == [] && t.children == [] then Parse(file, identifier) == InvalidFormat
            else Parse(file, identifier).Ok? && Inside(file, Parse(file, identifier).value)
                 && Decode(file, Parse(file, identifier).value) == t
  {
    var s := Spell(t);
    var file := identifier + Print(s);
    SpellMeans(t);
    assert file[..IDENTIFIER_SIZE] == identifier;
    assert file[IDENTIFIER_SIZE..] == Print(s) + Bytes([]);
    assert IsFile(file, identifier, s, []);
    PrintedIsAccepted(file, identifier, s, []);
    HoldsConcat(file, 0, identifier, Print(s));
    assert file[0..|file|] == file;
    LayoutDecodes(file, s, IDENTIFIER_SIZE);
  }
}
