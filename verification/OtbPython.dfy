/** The second reader of the format, `_parse_otbm.py`: it lists nodes as it meets them and, unlike
    the loader, does not know escape bytes outside property runs. */
module OtbPython {
  import opened Options
  import opened Otb
  import opened Words

  datatype Entry = Entry(kind: byte, depth: nat, props: seq<byte>)

  /** `read_props` from position `j`: the bytes and the position it stops at; `None` is an `IndexError`. */
  function Props(data: seq<byte>, j: nat): Option<(seq<byte>, nat)>
    requires j <= |data|
    decreases |data| - j
  {
    if j == |data| then Some(([], j))
    else if data[j] == ESCAPE then
      if j + 1 == |data| then None
      else
        match Props(data, j + 2)
        case None => None
        case Some((out, stop)) => Some(([data[j + 1]] + out, stop))
    else if data[j] == START || data[j] == END then Some(([], j))
    else
      match Props(data, j + 1)
      case None => None
      case Some((out, stop)) => Some(([data[j]] + out, stop))
  }

  lemma {:induction false} PropsStops(data: seq<byte>, j: nat)
    requires j <= |data|
    ensures Props(data, j).Some? ==> j <= Props(data, j).value.1 <= |data|
    decreases |data| - j
  {
    if j == |data| {
    } else if data[j] == ESCAPE && j + 1 < |data| {
      PropsStops(data, j + 2);
    } else {
      PropsStops(data, j + 1);
    }
  }

  function Prepend(entries: seq<Entry>, rest: Option<seq<Entry>>): Option<seq<Entry>> {
    match rest
    case None => None
    case Some(more) => Some(entries + more)
  }

  /** The node loop from position `i`, with `depth` frames on the stack. */
  function Listing(data: seq<byte>, i: nat, depth: nat): Option<seq<Entry>>
    requires i <= |data|
    decreases |data| - i
  {
    if i == |data| then Some([])
    else if data[i] == START then
      if i + 1 == |data| then None
      else
        PropsStops(data, i + 2);
        match Props(data, i + 2)
        case None => None
        case Some((props, j)) => Prepend([Entry(data[i + 1], depth, props)], Listing(data, j, depth + 1))
    else if data[i] == END then Listing(data, i + 1, if depth > 0 then depth - 1 else 0)
    else Listing(data, i + 1, depth)
  }

  lemma PrependNil(r: Option<seq<Entry>>)
    ensures Prepend([], r) == r
  {
    if r.Some? { assert [] + r.value == r.value; }
  }

  lemma PrependConcat(xs: seq<Entry>, ys: seq<Entry>, r: Option<seq<Entry>>)
    ensures Prepend(xs + ys, r) == Prepend(xs, Prepend(ys, r))
  {
    if r.Some? { assert (xs + ys) + r.value == xs + (ys + r.value); }
  }

  /** One round of the loop of `read_props`. */
  lemma PropsStep(data: seq<byte>, j: nat)
    requires j < |data|
    ensures Props(data, j) ==
            if data[j] == ESCAPE then (if j + 1 == |data| then None else Before(data[j + 1], Props(data, j + 2)))
            else if data[j] == START || data[j] == END then Some(([], j))
            else Before(data[j], Props(data, j + 1))
  {
  }

  function Before(b: byte, r: Option<(seq<byte>, nat)>): Option<(seq<byte>, nat)> {
    match r
    case None => None
    case Some((out, stop)) => Some(([b] + out, stop))
  }

  function After(out: seq<byte>, r: Option<(seq<byte>, nat)>): Option<(seq<byte>, nat)> {
    match r
    case None => None
    case Some((more, stop)) => Some((out + more, stop))
  }

  lemma AfterBefore(out: seq<byte>, b: byte, r: Option<(seq<byte>, nat)>)
    ensures After(out, Before(b, r)) == After(out + [b], r) && After([], r) == r
  {
    if r.Some? {
      assert out + ([b] + r.value.0) == (out + [b]) + r.value.0;
      assert [] + r.value.0 == r.value.0;
    }
  }

  method ReadProps(data: seq<byte>, start: nat) returns (r: Option<(seq<byte>, nat)>)
    requires start <= |data|
    ensures r == Props(data, start)
  {
    var out: seq<byte>, j := [], start;
    AfterBefore([], 0, Props(data, start));
    assert j == |data| ==> Props(data, j) == Some(([], j));
    hide Props;
    while j < |data|
      invariant start <= j <= |data|
      invariant Props(data, start) == After(out, Props(data, j))
    {
      var b := data[j];
      PropsStep(data, j);
      if b == ESCAPE {
        if j + 1 == |data| { return None; }
        AfterBefore(out, data[j + 1], Props(data, j + 2));
        out, j := out + [data[j + 1]], j + 2;
        continue;
      }
      if b == START || b == END { break; }
      AfterBefore(out, b, Props(data, j + 1));
      out, j := out + [b], j + 1;
    }
    PropsEnd(data);
    assert out + [] == out;
    return Some((out, j));
  }

  lemma PropsEnd(data: seq<byte>)
    ensures Props(data, |data|) == Some(([], |data|))
  {
  }

  method ReadNodes(data: seq<byte>) returns (r: Option<seq<Entry>>)
    ensures r == if |data| < IDENTIFIER_SIZE then Some([]) else Listing(data, IDENTIFIER_SIZE, 0)
  {
    if |data| < IDENTIFIER_SIZE { return Some([]); }
    var entries: seq<Entry>, i, stack: seq<byte> := [], IDENTIFIER_SIZE, [];
    PrependNil(Listing(data, i, 0));
    while i < |data|
      invariant IDENTIFIER_SIZE <= i <= |data|
      invariant Listing(data, IDENTIFIER_SIZE, 0) == Prepend(entries, Listing(data, i, |stack|))
      decreases |data| - i
    {
      var b := data[i];
      if b == START {
        if i + 1 == |data| { return None; }
        var props := ReadProps(data, i + 2);
        PropsStops(data, i + 2);
        if props.None? { return None; }
        var entry := Entry(data[i + 1], |stack|, props.value.0);
        PrependConcat(entries, [entry], Listing(data, props.value.1, |stack| + 1));
        entries := entries + [entry];
        stack := stack + [data[i + 1]];
        i := props.value.1;
      } else if b == END {
        if stack != [] { stack := stack[..|stack| - 1]; }
        i := i + 1;
      } else {
        i := i + 1;
      }
    }
    assert entries + [] == entries;
    return Some(entries);
  }

  // ---------------------------------------------------------------- agreement with the loader

  /** The nodes of a tree in the order in which their start bytes stand in the file. */
  function Preorder(t: Tree, depth: nat): seq<Entry>
    decreases t
  {
    [Entry(t.kind, depth, t.props)] + PreorderAll(t.children, depth + 1)
  }

  function PreorderAll(ts: seq<Tree>, depth: nat): seq<Entry>
    decreases ts
  {
    if ts == [] then [] else PreorderAll(ts[..|ts| - 1], depth) + Preorder(ts[|ts| - 1], depth)
  }

  lemma {:induction false} PropsOfItems(data: seq<byte>, j: nat, items: seq<Item>)
    requires ItemsOk(items) && Holds(data, j, Bytes(items))
    requires var stop := j + |Bytes(items)|; stop < |data| && (data[stop] == START || data[stop] == END)
    ensures Props(data, j) == Some((Values(items), j + |Bytes(items)|))
    decreases |items|
  {
    hide Bytes;
    hide Holds;
    hide Props;
    hide Values;
    if items == [] {
      NoItems();
      PropsStep(data, j);
    } else {
      var first, rest := items[0], items[1..];
      FirstItem(data, j, items);
      PropsStep(data, j);
      PropsOfItems(data, j + |ItemBytes(first)|, rest);
    }
  }

  lemma NoItems()
    ensures Bytes([]) == [] && Values([]) == []
  {
  }

  /** The first of some items: by itself, or behind an escape byte. */
  lemma FirstItem(data: seq<byte>, j: nat, items: seq<Item>)
    requires ItemsOk(items) && items != [] && Holds(data, j, Bytes(items))
    ensures var first, rest := items[0], items[1..];
            var next := j + |ItemBytes(first)|;
            && ItemsOk(rest) && ItemsOk([first]) && Holds(data, next, Bytes(rest)) && next <= |data|
            && next + |Bytes(rest)| == j + |Bytes(items)|
            && (if first.Plain? then data[j] == first.b && first.b < ESCAPE else data[j] == ESCAPE && data[j + 1] == first.b)
            && Values(items) == [first.b] + Values(rest)
  {
    hide Bytes;
    var first, rest := items[0], items[1..];
    assert items == [first] + rest;
    BytesCons(first, rest);
    HoldsConcat(data, j, ItemBytes(first), Bytes(rest));
    assert data[j] == data[j..j + |ItemBytes(first)|][0];
    if first.Escaped? { assert data[j + 1] == data[j..j + 2][1]; }
  }

  // ---------------------------------------------------------------- a file as the loader reads it

  /** The parts of a file in a row: a node begins, with its properties; a node ends; or there is a byte that
      belongs to nothing. */
  datatype Token = Enter(kind: byte, props: seq<Item>) | Leave | Gap(item: Item)

  function ItemBytes(item: Item): seq<byte> {
    if item.Plain? then [item.b] else [ESCAPE, item.b]
  }

  function TokenBytes(t: Token): seq<byte> {
    match t
    case Enter(kind, props) => [START, kind] + Bytes(props)
    case Leave => [END]
    case Gap(item) => ItemBytes(item)
  }

  function AllBytes(ts: seq<Token>): seq<byte> {
    if ts == [] then [] else TokenBytes(ts[0]) + AllBytes(ts[1..])
  }

  function Gaps(items: seq<Item>): (r: seq<Token>)
    ensures |r| == |items|
  {
    seq(|items|, i requires 0 <= i < |items| => Gap(items[i]))
  }

  function Tokens(s: Source): seq<Token>
    decreases s
  {
    [Enter(s.kind, s.props)] + KidTokens(s.kids) + [Leave]
  }

  function KidTokens(kids: seq<Kid>): seq<Token>
    decreases kids
  {
    if kids == [] then []
    else
      var last := kids[|kids| - 1];
      KidTokens(kids[..|kids| - 1]) + Tokens(last.node) + Gaps(last.junk)
  }

  lemma {:induction false} AllBytesConcat(a: seq<Token>, b: seq<Token>)
    ensures AllBytes(a + b) == AllBytes(a) + AllBytes(b)
  {
    hide TokenBytes;
    if a == [] {
      assert a + b == b;
    } else {
      AllBytesConcat(a[1..], b);
      assert (a + b)[1..] == a[1..] + b;
      var first, mid, last := TokenBytes(a[0]), AllBytes(a[1..]), AllBytes(b);
      assert first + (mid + last) == (first + mid) + last;
    }
  }

  lemma AllBytesOne(t: Token)
    ensures AllBytes([t]) == TokenBytes(t)
  {
    assert [t][1..] == [];
  }

  lemma {:induction false} GapBytes(items: seq<Item>)
    ensures AllBytes(Gaps(items)) == Bytes(items)
  {
    if items == [] {
    } else {
      var front, last := items[..|items| - 1], items[|items| - 1];
      GapBytes(front);
      AllBytesOne(Gap(last));
      AllBytesConcat(Gaps(front), [Gap(last)]);
      assert Gaps(items) == Gaps(front) + [Gap(last)];
    }
  }

  lemma {:induction false} TokensPrint(s: Source)
    ensures AllBytes(Tokens(s)) == Print(s)
    decreases s, 0
  {
    KidTokensPrint(s.kids);
    AllBytesOne(Enter(s.kind, s.props));
    AllBytesOne(Leave);
    hide AllBytes;
    hide KidTokens;
    hide PrintKids;
    AllBytesConcat([Enter(s.kind, s.props)], KidTokens(s.kids));
    AllBytesConcat([Enter(s.kind, s.props)] + KidTokens(s.kids), [Leave]);
  }

  lemma {:induction false} KidTokensPrint(kids: seq<Kid>)
    ensures AllBytes(KidTokens(kids)) == PrintKids(kids)
    decreases kids, 0
  {
    if kids == [] {
    } else {
      var front, last := kids[..|kids| - 1], kids[|kids| - 1];
      KidTokensPrint(front);
      TokensPrint(last.node);
      GapBytes(last.junk);
      AllBytesConcat(KidTokens(front), Tokens(last.node));
      AllBytesConcat(KidTokens(front) + Tokens(last.node), Gaps(last.junk));
    }
  }

  /** The items are as the grammar wants them, and what follows the properties of a node is another node or an end. */
  predicate Proper(ts: seq<Token>) {
    forall i :: 0 <= i < |ts| ==> ProperAt(ts, i)
  }

  predicate ProperAt(ts: seq<Token>, i: nat)
    requires i < |ts|
  {
    match ts[i]
    case Enter(_, props) => ItemsOk(props) && i + 1 < |ts| && !ts[i + 1].Gap?
    case Leave => true
    case Gap(item) => ItemsOk([item])
  }

  lemma ProperConcat(a: seq<Token>, b: seq<Token>)
    requires Proper(a) && Proper(b)
    ensures Proper(a + b)
  {
    forall i | 0 <= i < |a + b| ensures ProperAt(a + b, i) {
      if i < |a| {
        assert ProperAt(a, i);
      } else {
        assert ProperAt(b, i - |a|);
      }
    }
  }

  lemma GapsProper(items: seq<Item>)
    requires ItemsOk(items)
    ensures Proper(Gaps(items))
  {
  }

  lemma {:induction false} TokensProper(s: Source)
    requires SourceOk(s)
    ensures Proper(Tokens(s)) && Tokens(s)[0].Enter?
    decreases s, 0
  {
    var kids := KidTokens(s.kids);
    KidTokensProper(s.kids);
    assert Proper([Leave]);
    ProperConcat(kids, [Leave]);
    var ts := Tokens(s);
    assert ts == [ts[0]] + (kids + [Leave]);
    forall i | 0 <= i < |ts| ensures ProperAt(ts, i) {
      if i > 0 { assert ProperAt(kids + [Leave], i - 1); }
    }
  }

  lemma {:induction false} KidTokensProper(kids: seq<Kid>)
    requires KidsOk(kids)
    ensures Proper(KidTokens(kids)) && (KidTokens(kids) != [] ==> KidTokens(kids)[0].Enter?)
    decreases kids, 0
  {
    if kids == [] {
    } else {
      var front, last := kids[..|kids| - 1], kids[|kids| - 1];
      KidTokensProper(front);
      TokensProper(last.node);
      GapsProper(last.junk);
      ProperConcat(KidTokens(front), Tokens(last.node));
      ProperConcat(KidTokens(front) + Tokens(last.node), Gaps(last.junk));
    }
  }

  // ---------------------------------------------------------------- what either reader makes of the parts

  function Down(depth: nat): nat {
    if depth > 0 then depth - 1 else 0
  }

  /** The nodes as the loader counts their depth. */
  function Meant(ts: seq<Token>, depth: nat): seq<Entry> {
    if ts == [] then []
    else
      match ts[0]
      case Enter(kind, props) => [Entry(kind, depth, Values(props))] + Meant(ts[1..], depth + 1)
      case Leave => Meant(ts[1..], Down(depth))
      case Gap(_) => Meant(ts[1..], depth)
  }

  /** The nodes as the second reader counts it: an escaped end byte closes a node, too. */
  function Listed(ts: seq<Token>, depth: nat): seq<Entry> {
    if ts == [] then []
    else
      match ts[0]
      case Enter(kind, props) => [Entry(kind, depth, Values(props))] + Listed(ts[1..], depth + 1)
      case Leave => Listed(ts[1..], Down(depth))
      case Gap(item) => Listed(ts[1..], if item == Escaped(END) then Down(depth) else depth)
  }

  /** Nodes begin and end inside the root only. */
  predicate Nested(ts: seq<Token>, depth: nat) {
    if ts == [] then true
    else
      match ts[0]
      case Enter(_, _) => depth >= 1 && Nested(ts[1..], depth + 1)
      case Leave => depth >= 1 && Nested(ts[1..], depth - 1)
      case Gap(_) => Nested(ts[1..], depth)
  }

  lemma {:induction false} MeantGaps(items: seq<Item>, depth: nat, more: seq<Token>)
    ensures Meant(Gaps(items) + more, depth) == Meant(more, depth)
    ensures Nested(Gaps(items) + more, depth) == Nested(more, depth)
    decreases |items|
  {
    if items == [] {
      assert Gaps(items) + more == more;
    } else {
      assert Gaps(items) + more == [Gap(items[0])] + (Gaps(items[1..]) + more);
      MeantGaps(items[1..], depth, more);
    }
  }

  lemma {:induction false} MeantTokens(s: Source, depth: nat, more: seq<Token>)
    ensures Meant(Tokens(s) + more, depth) == Preorder(Meaning(s), depth) + Meant(more, depth)
    ensures depth >= 1 && Nested(more, depth) ==> Nested(Tokens(s) + more, depth)
    ensures Nested(more, 0) ==> Nested((Tokens(s) + more)[1..], 1)
    decreases s, 0
  {
    hide Preorder;
    hide PreorderAll;
    var kids, end := KidTokens(s.kids), [Leave] + more;
    assert Tokens(s) + more == [Enter(s.kind, s.props)] + (kids + end);
    assert end[1..] == more;
    MeantKids(s.kids, depth + 1, end);
    MeantKids(s.kids, 1, end);
    PreorderIs(s, depth);
    assert (Tokens(s) + more)[1..] == kids + end;
    var head, mid, tail := [Entry(s.kind, depth, Values(s.props))], PreorderAll(Meanings(s.kids), depth + 1), Meant(more, depth);
    assert head + (mid + tail) == (head + mid) + tail;
  }

  lemma PreorderIs(s: Source, depth: nat)
    ensures Preorder(Meaning(s), depth) == [Entry(s.kind, depth, Values(s.props))] + PreorderAll(Meanings(s.kids), depth + 1)
  {
  }

  lemma PreorderKids(kids: seq<Kid>, depth: nat)
    ensures PreorderAll(Meanings(kids), depth) ==
            if kids == [] then []
            else PreorderAll(Meanings(kids[..|kids| - 1]), depth) + Preorder(Meaning(kids[|kids| - 1].node), depth)
  {
    if kids != [] { assert Meanings(kids)[..|kids| - 1] == Meanings(kids[..|kids| - 1]); }
  }

  lemma KidTokensMore(kids: seq<Kid>, more: seq<Token>)
    ensures KidTokens(kids) + more ==
            if kids == [] then more
            else
              var front, last := kids[..|kids| - 1], kids[|kids| - 1];
              KidTokens(front) + (Tokens(last.node) + (Gaps(last.junk) + more))
  {
    if kids != [] {
      var front, last := kids[..|kids| - 1], kids[|kids| - 1];
      var a, b, c := KidTokens(front), Tokens(last.node), Gaps(last.junk);
      assert KidTokens(kids) == a + b + c;
      assert (a + b + c) + more == a + (b + (c + more));
    }
  }

  lemma {:induction false} MeantKids(kids: seq<Kid>, depth: nat, more: seq<Token>)
    ensures Meant(KidTokens(kids) + more, depth) == PreorderAll(Meanings(kids), depth) + Meant(more, depth)
    ensures depth >= 1 && Nested(more, depth) ==> Nested(KidTokens(kids) + more, depth)
    decreases kids, 0
  {
    hide Preorder;
    hide PreorderAll;
    hide Meant;
    hide Nested;
    hide KidTokens;
    hide Tokens;
    hide Meanings;
    hide Meaning;
    hide Gaps;
    PreorderKids(kids, depth);
    KidTokensMore(kids, more);
    if kids == [] {
    } else {
      var front, last := kids[..|kids| - 1], kids[|kids| - 1];
      var gaps := Gaps(last.junk) + more;
      MeantGaps(last.junk, depth, more);
      MeantTokens(last.node, depth, gaps);
      MeantKids(front, depth, Tokens(last.node) + gaps);
      var a, b, e := PreorderAll(Meanings(front), depth), Preorder(Meaning(last.node), depth), Meant(more, depth);
      assert a + (b + e) == (a + b) + e;
    }
  }

  predicate NoNode(ts: seq<Token>) {
    forall i :: 0 <= i < |ts| ==> !ts[i].Enter?
  }

  lemma {:induction false} NoNodeNoEntry(ts: seq<Token>, depth: nat)
    ensures NoNode(ts) ==> Meant(ts, depth) == [] && Listed(ts, depth) == []
    ensures Nested(ts, 0) ==> NoNode(ts)
  {
    if ts == [] {
    } else {
      NoNodeNoEntry(ts[1..], if ts[0].Gap? && ts[0].item != Escaped(END) then depth else Down(depth));
      NoNodeNoEntry(ts[1..], depth);
      assert ts == [ts[0]] + ts[1..];
    }
  }

  /** Once the second reader believes to be less deep than it is, the next node gives it away. */
  lemma {:induction false} LagShows(ts: seq<Token>, low: nat, depth: nat)
    requires low < depth && Nested(ts, depth) && !NoNode(ts)
    ensures Listed(ts, low) != Meant(ts, depth)
  {
    assert ts == [ts[0]] + ts[1..];
    match ts[0]
    case Enter(kind, props) =>
      assert Listed(ts, low)[0] != Meant(ts, depth)[0];
    case Leave =>
      NoNodeNoEntry(ts[1..], 0);
      LagShows(ts[1..], Down(low), depth - 1);
    case Gap(item) =>
      LagShows(ts[1..], if item == Escaped(END) then Down(low) else low, depth);
  }

  /** No node begins behind an escaped end byte that belongs to nothing. */
  predicate Orderly(ts: seq<Token>) {
    forall i, j :: 0 <= i < j < |ts| && ts[i] == Gap(Escaped(END)) ==> !ts[j].Enter?
  }

  lemma {:induction false} DepthsAgreeIff(ts: seq<Token>, depth: nat)
    requires Nested(ts, depth)
    ensures Listed(ts, depth) == Meant(ts, depth) <==> Orderly(ts)
  {
    if ts == [] {
    } else {
      var rest := ts[1..];
      assert ts == [ts[0]] + rest;
      if ts[0] == Gap(Escaped(END)) {
        NoNodeNoEntry(rest, depth);
        NoNodeNoEntry(rest, Down(depth));
        if NoNode(rest) {
        } else {
          LagShows(rest, Down(depth), depth);
          var j :| 0 <= j < |rest| && rest[j].Enter?;
          assert ts[j + 1].Enter?;
        }
      } else {
        OrderlyTail(ts);
        match ts[0]
        case Enter(kind, props) =>
          DepthsAgreeIff(rest, depth + 1);
          SameHead(Entry(kind, depth, Values(props)), Listed(rest, depth + 1), Meant(rest, depth + 1));
        case Leave => DepthsAgreeIff(rest, depth - 1);
        case Gap(_) => DepthsAgreeIff(rest, depth);
      }
    }
  }

  lemma SameHead(x: Entry, xs: seq<Entry>, ys: seq<Entry>)
    ensures [x] + xs == [x] + ys <==> xs == ys
  {
    assert ([x] + xs)[1..] == xs && ([x] + ys)[1..] == ys;
  }

  lemma OrderlyTail(ts: seq<Token>)
    requires ts != [] && ts[0] != Gap(Escaped(END))
    ensures Orderly(ts) <==> Orderly(ts[1..])
  {
    var rest := ts[1..];
    if Orderly(rest) {
      forall i, j | 0 <= i < j < |ts| && ts[i] == Gap(Escaped(END)) ensures !ts[j].Enter? {
        assert rest[i - 1] == ts[i] && rest[j - 1] == ts[j];
      }
    }
    if Orderly(ts) {
      forall i, j | 0 <= i < j < |rest| && rest[i] == Gap(Escaped(END)) ensures !rest[j].Enter? {
        assert rest[i] == ts[i + 1] && rest[j] == ts[j + 1];
      }
    }
  }

  // ---------------------------------------------------------------- the second reader, in step with the loader

  /** `ts` is what the loader has still to read from `at` on. */
  ghost predicate From(data: seq<byte>, at: nat, ts: seq<Token>) {
    Proper(ts) && Holds(data, at, AllBytes(ts)) && at + |AllBytes(ts)| == |data|
  }

  /** The first part of the rest, byte by byte. */
  lemma Head(data: seq<byte>, at: nat, ts: seq<Token>)
    requires From(data, at, ts) && ts != []
    ensures at + |TokenBytes(ts[0])| <= |data| && From(data, at + |TokenBytes(ts[0])|, ts[1..])
    ensures match ts[0]
            case Enter(kind, props) =>
              var stop := at + 2 + |Bytes(props)|;
              && ItemsOk(props) && data[at] == START && data[at + 1] == kind && Holds(data, at + 2, Bytes(props))
              && stop < |data| && (data[stop] == START || data[stop] == END)
            case Leave => data[at] == END
            case Gap(item) =>
              && ItemsOk([item])
              && if item.Plain? then data[at] == item.b else data[at] == ESCAPE && data[at + 1] == item.b
  {
    hide AllBytes;
    hide Bytes;
    hide Holds;
    hide Proper;
    var first, rest := TokenBytes(ts[0]), ts[1..];
    AllBytesStep(ts);
    ProperTail(ts);
    HoldsConcat(data, at, first, AllBytes(rest));
    TokenAt(data, at, ts[0]);
    if ts[0].Enter? {
      AllBytesStep(rest);
      HoldsConcat(data, at + |first|, TokenBytes(rest[0]), AllBytes(rest[1..]));
      TokenAt(data, at + |first|, rest[0]);
    }
  }

  lemma AllBytesStep(ts: seq<Token>)
    ensures AllBytes(ts) == if ts == [] then [] else TokenBytes(ts[0]) + AllBytes(ts[1..])
  {
  }

  lemma ProperTail(ts: seq<Token>)
    requires Proper(ts) && ts != []
    ensures ProperAt(ts, 0) && Proper(ts[1..])
  {
    var rest := ts[1..];
    forall i | 0 <= i < |rest| ensures ProperAt(rest, i) {
      assert ProperAt(ts, i + 1);
    }
  }

  lemma TokenAt(data: seq<byte>, at: nat, t: Token)
    requires Holds(data, at, TokenBytes(t))
    ensures at + |TokenBytes(t)| <= |data| && 1 <= |TokenBytes(t)|
    ensures match t
            case Enter(kind, props) =>
              && |TokenBytes(t)| == 2 + |Bytes(props)| && data[at] == START && data[at + 1] == kind
              && Holds(data, at + 2, Bytes(props))
            case Leave => |TokenBytes(t)| == 1 && data[at] == END
            case Gap(item) =>
              && |TokenBytes(t)| == (if item.Plain? then 1 else 2)
              && if item.Plain? then data[at] == item.b else data[at] == ESCAPE && data[at + 1] == item.b
  {
    hide Bytes;
    var part := TokenBytes(t);
    assert data[at] == data[at..at + |part|][0];
    if |part| > 1 { assert data[at + 1] == data[at..at + |part|][1]; }
    if t.Enter? { HoldsConcat(data, at, [START, t.kind], Bytes(t.props)); }
  }

  /** No escaped start byte belongs to nothing. */
  predicate NoStray(ts: seq<Token>) {
    forall i :: 0 <= i < |ts| ==> ts[i] != Gap(Escaped(START))
  }

  /** The second reader at the beginning of a node, and at its end. */
  lemma EnterStep(data: seq<byte>, at: nat, kind: byte, props: seq<Item>, depth: nat)
    requires ItemsOk(props) && at + 1 < |data| && data[at] == START && data[at + 1] == kind && Holds(data, at + 2, Bytes(props))
    requires var stop := at + 2 + |Bytes(props)|; stop < |data| && (data[stop] == START || data[stop] == END)
    ensures Listing(data, at, depth) ==
            Prepend([Entry(kind, depth, Values(props))], Listing(data, at + 2 + |Bytes(props)|, depth + 1))
  {
    PropsOfItems(data, at + 2, props);
    hide Props;
    hide Bytes;
    hide Holds;
    hide Values;
  }

  lemma LeaveStep(data: seq<byte>, at: nat, depth: nat)
    requires at < |data| && data[at] == END
    ensures Listing(data, at, depth) == Listing(data, at + 1, Down(depth))
  {
    hide Props;
  }

  lemma NothingLeft(data: seq<byte>, depth: nat)
    ensures Listing(data, |data|, depth) == Some([]) && Listed([], depth) == []
  {
  }

  lemma MeantStep(ts: seq<Token>, depth: nat)
    requires ts != []
    ensures Meant(ts, depth) == match ts[0]
                                case Enter(kind, props) => [Entry(kind, depth, Values(props))] + Meant(ts[1..], depth + 1)
                                case Leave => Meant(ts[1..], Down(depth))
                                case Gap(_) => Meant(ts[1..], depth)
    ensures Listed(ts, depth) == match ts[0]
                                 case Enter(kind, props) => [Entry(kind, depth, Values(props))] + Listed(ts[1..], depth + 1)
                                 case Leave => Listed(ts[1..], Down(depth))
                                 case Gap(item) => Listed(ts[1..], if item == Escaped(END) then Down(depth) else depth)
  {
    hide Values;
  }

  lemma {:induction false} InStep(data: seq<byte>, at: nat, ts: seq<Token>, depth: nat)
    requires From(data, at, ts) && NoStray(ts)
    ensures Listing(data, at, depth) == Some(Listed(ts, depth))
    decreases |ts|
  {
    hide From;
    hide Props;
    hide Bytes;
    hide Holds;
    hide NoStray;
    hide Values;
    hide Listing;
    hide Listed;
    FromLength(data, at, ts);
    if ts == [] {
      NothingLeft(data, depth);
    } else {
      MeantStep(ts, depth);
      Head(data, at, ts);
      NoStrayTail(ts);
      var next, rest := at + |TokenBytes(ts[0])|, ts[1..];
      match ts[0]
      case Enter(kind, props) =>
        EnterStep(data, at, kind, props, depth);
        InStep(data, next, rest, depth + 1);
      case Leave =>
        LeaveStep(data, at, depth);
        InStep(data, next, rest, Down(depth));
      case Gap(item) =>
        PassesGap(data, at, item, depth);
        InStep(data, next, rest, if item == Escaped(END) then Down(depth) else depth);
    }
  }

  lemma FromLength(data: seq<byte>, at: nat, ts: seq<Token>)
    requires From(data, at, ts)
    ensures at <= |data| && (ts == [] ==> at == |data|)
  {
  }

  lemma NoStrayTail(ts: seq<Token>)
    requires ts != []
    ensures NoStray(ts) <==> ts[0] != Gap(Escaped(START)) && NoStray(ts[1..])
  {
    assert ts == [ts[0]] + ts[1..];
    if NoStray(ts) {
      forall i | 0 <= i < |ts[1..]| ensures ts[1..][i] != Gap(Escaped(START)) {
        assert ts[1..][i] == ts[i + 1];
      }
    }
  }

  lemma NotStray(ts: seq<Token>)
    requires !NoStray(ts)
    ensures ts != []
  {
  }

  /** What the second reader makes of a byte that belongs to nothing. */
  lemma PassesGap(data: seq<byte>, at: nat, item: Item, depth: nat)
    requires ItemsOk([item]) && at + |ItemBytes(item)| <= |data|
    requires if item.Plain? then data[at] == item.b else data[at] == ESCAPE && data[at + 1] == item.b
    ensures Listing(data, at, depth) ==
            if item == Escaped(START) then Listing(data, at + 1, depth)
            else Listing(data, at + |ItemBytes(item)|, if item == Escaped(END) then Down(depth) else depth)
  {
    hide Props;
    assert [item][0] == item;
    if item.Escaped? { assert Listing(data, at, depth) == Listing(data, at + 1, depth); }
  }

  // ---------------------------------------------------------------- the second reader, out of step

  /** Looking for nodes from `j` on the second reader finds one at `q`, or before. */
  lemma {:induction false} FindsStart(data: seq<byte>, j: nat, q: nat, depth: nat) returns (p: nat, low: nat)
    requires j <= q < |data| && data[q] == START
    ensures j <= p <= q && data[p] == START && Listing(data, j, depth) == Listing(data, p, low)
    decreases q - j
  {
    if data[j] == START {
      p, low := j, depth;
    } else {
      p, low := FindsStart(data, j + 1, q, if data[j] == END then Down(depth) else depth);
    }
  }

  /** Reading properties, it stops there, or takes the byte for an escaped one and reads on. */
  lemma {:induction false} StopsOrSwallows(data: seq<byte>, j: nat, q: nat) returns (before: seq<byte>)
    requires j <= q < |data| && data[q] == START && Props(data, j).Some?
    ensures || j <= Props(data, j).value.1 <= q
            || (Props(data, q + 1).Some?
                && Props(data, j).value == (before + [START] + Props(data, q + 1).value.0, Props(data, q + 1).value.1))
    decreases q - j
  {
    before := [];
    if j == q || data[j] == START || data[j] == END {
    } else if data[j] == ESCAPE && j + 1 == q {
      assert [] + [START] == [START];
    } else {
      var step := if data[j] == ESCAPE then 2 else 1;
      var more := StopsOrSwallows(data, j + step, q);
      before := [if data[j] == ESCAPE then data[j + 1] else data[j]] + more;
      if Props(data, q + 1).Some? {
        var tail := Props(data, q + 1).value.0;
        assert [before[0]] + (more + [START] + tail) == before + [START] + tail;
      }
    }
  }

  /** Where a property with the value of a start byte stands. */
  lemma {:induction false} StartAmong(data: seq<byte>, at: nat, items: seq<Item>) returns (x: nat)
    requires Holds(data, at, Bytes(items)) && START in Values(items)
    ensures at <= x < at + |Bytes(items)| && x < |data| && data[x] == START
    decreases |items|
  {
    var first, rest := items[0], items[1..];
    assert items == [first] + rest;
    BytesCons(first, rest);
    HoldsConcat(data, at, ItemBytes(first), Bytes(rest));
    if first.b == START {
      x := at + |ItemBytes(first)| - 1;
      assert data[x] == data[at..at + |ItemBytes(first)|][x - at];
    } else {
      assert Values(items) == [first.b] + Values(rest);
      x := StartAmong(data, at + |ItemBytes(first)|, rest);
    }
  }

  /** The second reader, about to take the first byte of some properties for an escaped one, reads as many values as
      there are or more, or stops at a start or end byte among them. `k` properties are behind it then. */
  lemma {:induction false} Misreads(data: seq<byte>, j: nat, items: seq<Item>) returns (k: nat)
    requires ItemsOk(items) && j < |data| && data[j] == ESCAPE && Holds(data, j + 1, Bytes(items))
    requires var stop := j + 1 + |Bytes(items)|; stop < |data| && (data[stop] == START || data[stop] == END)
    requires Props(data, j).Some?
    ensures var (v, stop) := Props(data, j).value;
            || |v| >= |items|
            || (j < stop < j + 1 + |Bytes(items)| && data[stop] == START)
            || (j < stop < j + 1 + |Bytes(items)| && data[stop] == END && k <= |items| && START !in Values(items[..k])
                && Holds(data, stop + 1, Bytes(items[k..])) && stop + 1 + |Bytes(items[k..])| == j + 1 + |Bytes(items)|)
    decreases |items|
  {
    hide Bytes;
    hide Holds;
    hide Props;
    hide Values;
    k := 0;
    if items == [] {
    } else {
      var first, rest := items[0], items[1..];
      assert items == [first] + rest;
      BytesCons(first, rest);
      TakesFirst(data, j, first, rest);
      if first.Plain? {
        PropsOfItems(data, j + 2, rest);
      } else if first.b < ESCAPE {
        PropsOfItems(data, j + 3, rest);
      } else if first.b == ESCAPE {
        k := Misreads(data, j + 2, rest);
        k := k + 1;
        if k <= |items| { StartBehind(items, k); }
      } else if first.b == END {
        k := 1;
        StartBehind(items, 1);
      }
    }
  }

  lemma StartBehind(items: seq<Item>, k: nat)
    requires 1 <= k <= |items|
    ensures items[k..] == items[1..][k - 1..]
    ensures START in Values(items[..k]) <==> items[0].b == START || START in Values(items[1..][..k - 1])
  {
    assert items[..k] == [items[0]] + items[1..][..k - 1];
    assert Values(items[..k]) == [items[0].b] + Values(items[1..][..k - 1]);
  }

  /** The first byte of the item is taken for an escaped one. */
  lemma TakesFirst(data: seq<byte>, j: nat, first: Item, rest: seq<Item>)
    requires ItemsOk([first] + rest) && j < |data| && data[j] == ESCAPE && Holds(data, j + 1, ItemBytes(first) + Bytes(rest))
    ensures ItemsOk(rest) && ItemsOk([first])
    ensures var at := j + 1 + |ItemBytes(first)|;
            at <= |data| && Holds(data, at, Bytes(rest)) && (first.Escaped? ==> data[j + 2] == first.b)
    ensures Props(data, j).Some? ==>
              var next := Props(data, j + 2);
              && next.Some?
              && Props(data, j).value == ([if first.Plain? then first.b else ESCAPE] + next.value.0, next.value.1)
              && (first.Escaped? && first.b >= START ==> next.value == ([], j + 2))
              && (first.Escaped? && first.b < ESCAPE ==>
                    Props(data, j + 3).Some?
                    && next.value == ([first.b] + Props(data, j + 3).value.0, Props(data, j + 3).value.1))
  {
    hide Bytes;
    var part := ItemBytes(first);
    HoldsConcat(data, j + 1, part, Bytes(rest));
    assert data[j + 1] == data[j + 1..j + 1 + |part|][0];
    if first.Escaped? { assert data[j + 2] == data[j + 1..j + 1 + |part|][1]; }
    assert ([first] + rest)[0] == first;
    forall i | 0 <= i < |rest| && rest[i].Plain? ensures rest[i].b < ESCAPE {
      assert ([first] + rest)[i + 1] == rest[i];
    }
  }

  /** Having swallowed the start byte at `q`, the second reader can come by the right properties only by stopping
      within the node and finding another start byte there. */
  lemma SwallowsAndFinds(data: seq<byte>, q: nat, kind: byte, items: seq<Item>, before: seq<byte>, depth: nat)
    returns (p: nat, low: nat)
    requires ItemsOk(items) && q + 1 < |data| && data[q + 1] == kind && Holds(data, q + 2, Bytes(items))
    requires var stop := q + 2 + |Bytes(items)|; stop < |data| && (data[stop] == START || data[stop] == END)
    requires Props(data, q + 1).Some? && before + [START] + Props(data, q + 1).value.0 == Values(items)
    requires Props(data, q + 1).value.1 <= |data|
    ensures q < p < q + 2 + |Bytes(items)| && data[p] == START
    ensures Listing(data, Props(data, q + 1).value.1, depth) == Listing(data, p, low)
  {
    hide Props;
    hide Listing;
    hide Bytes;
    hide Holds;
    hide Values;
    PropsStep(data, q + 1);
    var (v, stop) := Props(data, q + 1).value;
    assert START in before + [START] + v by {
      assert (before + [START] + v)[|before|] == START;
    }
    if kind < ESCAPE {
      PropsOfItems(data, q + 2, items);
      assert false;
    } else if kind == START {
      p, low := q + 1, depth;
    } else if kind == END {
      var x := StartAmong(data, q + 2, items);
      p, low := FindsStart(data, q + 1, x, depth);
    } else {
      var k := Misreads(data, q + 1, items);
      if data[stop] == START {
        p, low := stop, depth;
      } else {
        ValuesSplit(items, k);
        var x := StartAmong(data, stop + 1, items[k..]);
        p, low := FindsStart(data, stop, x, depth);
      }
    }
  }

  lemma ValuesSplit(items: seq<Item>, k: nat)
    requires k <= |items|
    ensures Values(items) == Values(items[..k]) + Values(items[k..])
  {
  }

  /** Once the second reader takes for a node what begins before the next node does, it never falls in step again:
      it lists more nodes, or others, or fails. */
  lemma {:induction false} NeverInStep(data: seq<byte>, at: nat, ts: seq<Token>, p: nat, low: nat, depth: nat)
    requires From(data, at, ts) && p < at && data[p] == START
    ensures Listing(data, p, low) != Some(Meant(ts, depth))
    decreases |ts|
  {
    hide From;
    hide Props;
    hide Bytes;
    hide Holds;
    hide Values;
    FromLength(data, at, ts);
    PropsWithin(data, p);
    if ts == [] {
    } else if !ts[0].Enter? {
      Head(data, at, ts);
      NeverInStep(data, at + |TokenBytes(ts[0])|, ts[1..], p, low, if ts[0].Leave? then Down(depth) else depth);
    } else if Listing(data, p, low) == Some(Meant(ts, depth)) {
      Head(data, at, ts);
      var kind, props := ts[0].kind, ts[0].props;
      var (v, stop) := Props(data, p + 2).value;
      assert Listing(data, p, low).value == [Entry(data[p + 1], low, v)] + Listing(data, stop, low + 1).value;
      assert Meant(ts, depth) == [Entry(kind, depth, Values(props))] + Meant(ts[1..], depth + 1);
      SameTail(Entry(data[p + 1], low, v), Listing(data, stop, low + 1).value, Entry(kind, depth, Values(props)), Meant(ts[1..], depth + 1));
      var p', low' := NextStart(data, at, kind, props, p, low + 1);
      NeverInStep(data, at + |TokenBytes(ts[0])|, ts[1..], p', low', depth + 1);
      assert false;
    }
  }

  lemma SameTail(x: Entry, xs: seq<Entry>, y: Entry, ys: seq<Entry>)
    requires [x] + xs == [y] + ys
    ensures x == y && xs == ys
  {
    assert ([x] + xs)[0] == x && ([y] + ys)[0] == y;
    assert ([x] + xs)[1..] == xs && ([y] + ys)[1..] == ys;
  }

  lemma PropsWithin(data: seq<byte>, p: nat)
    ensures p + 2 <= |data| && Props(data, p + 2).Some? ==> p + 2 <= Props(data, p + 2).value.1 <= |data|
  {
    if p + 2 <= |data| { PropsStops(data, p + 2); }
  }

  /** The second reader takes a node at `p` for the one that begins at `q`, kind and properties being the same.
      Then the next start byte it finds stands before the end of the latter's properties. */
  lemma NextStart(data: seq<byte>, q: nat, kind: byte, items: seq<Item>, p: nat, depth: nat) returns (p': nat, low: nat)
    requires p < q && q + 1 < |data| && data[q] == START && data[q + 1] == kind && data[p + 1] == kind
    requires ItemsOk(items) && Holds(data, q + 2, Bytes(items))
    requires var stop := q + 2 + |Bytes(items)|; stop < |data| && (data[stop] == START || data[stop] == END)
    requires Props(data, p + 2).Some? && Props(data, p + 2).value.0 == Values(items)
    requires Props(data, p + 2).value.1 <= |data|
    ensures p' < q + 2 + |Bytes(items)| && data[p'] == START
    ensures Listing(data, Props(data, p + 2).value.1, depth) == Listing(data, p', low)
  {
    var stop := Props(data, p + 2).value.1;
    if p + 1 == q {
      p', low := q + 1, depth;
    } else {
      var before := StopsOrSwallows(data, p + 2, q);
      if stop <= q {
        p', low := FindsStart(data, stop, q, depth);
      } else {
        p', low := SwallowsAndFinds(data, q, kind, items, before, depth);
      }
    }
  }

  lemma StaysDifferent(x: Entry, r: Option<seq<Entry>>, y: Entry, ys: seq<Entry>)
    requires r != Some(ys)
    ensures Prepend([x], r) != Some([y] + ys)
  {
    if r.Some? && [x] + r.value == [y] + ys { SameTail(x, r.value, y, ys); }
  }

  /** An escaped start byte that belongs to nothing always sets the readers apart. */
  lemma {:induction false} StrayShows(data: seq<byte>, at: nat, ts: seq<Token>, low: nat, depth: nat)
    requires From(data, at, ts) && !NoStray(ts)
    ensures Listing(data, at, low) != Some(Meant(ts, depth))
    decreases |ts|
  {
    hide From;
    hide Props;
    hide Bytes;
    hide Holds;
    hide Listing;
    hide Meant;
    hide Values;
    NotStray(ts);
    Head(data, at, ts);
    NoStrayTail(ts);
    MeantStep(ts, depth);
    hide NoStray;
    var rest, next := ts[1..], at + |TokenBytes(ts[0])|;
    match ts[0]
    case Enter(kind, props) =>
      EnterStep(data, at, kind, props, low);
      StrayShows(data, next, rest, low + 1, depth + 1);
      StaysDifferent(Entry(kind, low, Values(props)), Listing(data, next, low + 1),
                     Entry(kind, depth, Values(props)), Meant(rest, depth + 1));
    case Leave =>
      LeaveStep(data, at, low);
      StrayShows(data, next, rest, Down(low), Down(depth));
    case Gap(item) =>
      PassesGap(data, at, item, low);
      if item == Escaped(START) {
        NeverInStep(data, next, rest, at + 1, low, depth);
      } else {
        StrayShows(data, next, rest, if item == Escaped(END) then Down(low) else low, depth);
      }
  }

  // ---------------------------------------------------------------- when the readers agree

  /** On every file the loader accepts, the two readers see the same nodes, depths and properties in the same order
      exactly if outside properties there is no escaped start byte, and no escaped end byte with a node behind it. */
  lemma ReadersAgree(file: seq<byte>, accepted: seq<byte>, s: Source, rest: seq<Item>)
    requires IsFile(file, accepted, s, rest) && Parse(file, accepted).Ok?
    ensures Inside(file, Parse(file, accepted).value)
    ensures var parts := Tokens(s) + Gaps(rest);
            Listing(file, IDENTIFIER_SIZE, 0) == Some(Preorder(Decode(file, Parse(file, accepted).value), 0))
            <==> NoStray(parts) && Orderly(parts)
  {
    var at, parts := IDENTIFIER_SIZE, Tokens(s) + Gaps(rest);
    assert file[at..at + |file[at..]|] == file[at..];
    HoldsConcat(file, at, Print(s), Bytes(rest));
    PrintedIsAccepted(file, accepted, s, rest);
    LayoutDecodes(file, s, at);
    FileParts(file, s, rest);
    Meaningful(s, rest);
    hide Tokens;
    hide Proper;
    hide NoStray;
    hide Orderly;
    hide Preorder;
    hide Listing;
    hide Listed;
    hide Meant;
    if NoStray(parts) {
      InStep(file, at, parts, 0);
      RootDepths(s, rest);
    } else {
      StrayShows(file, at, parts, 0, 0);
    }
  }

  lemma FileParts(file: seq<byte>, s: Source, rest: seq<Item>)
    requires SourceOk(s) && ItemsOk(rest) && IDENTIFIER_SIZE <= |file| && file[IDENTIFIER_SIZE..] == Print(s) + Bytes(rest)
    ensures From(file, IDENTIFIER_SIZE, Tokens(s) + Gaps(rest))
  {
    TokensPrint(s);
    GapBytes(rest);
    AllBytesConcat(Tokens(s), Gaps(rest));
    TokensProper(s);
    GapsProper(rest);
    ProperConcat(Tokens(s), Gaps(rest));
    assert file[IDENTIFIER_SIZE..IDENTIFIER_SIZE + |file[IDENTIFIER_SIZE..]|] == file[IDENTIFIER_SIZE..];
  }

  lemma Meaningful(s: Source, rest: seq<Item>)
    ensures Meant(Tokens(s) + Gaps(rest), 0) == Preorder(Meaning(s), 0)
  {
    MeantTokens(s, 0, Gaps(rest));
    MeantGaps(rest, 0, []);
    assert Gaps(rest) + [] == Gaps(rest);
    assert Preorder(Meaning(s), 0) + [] == Preorder(Meaning(s), 0);
  }

  /** Nothing can come before the root, so its beginning is the same to both. */
  lemma RootDepths(s: Source, rest: seq<Item>)
    ensures var parts := Tokens(s) + Gaps(rest);
            Listed(parts, 0) == Meant(parts, 0) <==> Orderly(parts)
  {
    var parts := Tokens(s) + Gaps(rest);
    MeantGaps(rest, 0, []);
    assert Gaps(rest) + [] == Gaps(rest);
    MeantTokens(s, 0, Gaps(rest));
    assert parts[0].Enter?;
    DepthsAgreeIff(parts[1..], 1);
    OrderlyTail(parts);
    var root := Entry(s.kind, 0, Values(s.props));
    assert Listed(parts, 0) == [root] + Listed(parts[1..], 1) && Meant(parts, 0) == [root] + Meant(parts[1..], 1);
    if Listed(parts, 0) == Meant(parts, 0) {
      SameTail(root, Listed(parts[1..], 1), root, Meant(parts[1..], 1));
    }
  }

  /** The condition matters: behind a first child, an escaped start byte is one unowned byte to the
      loader and the start of another node to the second reader. */
  lemma ReadersCanDiffer() returns (file: seq<byte>, n: Node)
    ensures Parse(file, WILDCARD) == Ok(n) && Inside(file, n) && |Preorder(Decode(file, n), 0)| == 2
    ensures Listing(file, IDENTIFIER_SIZE, 0).Some? && |Listing(file, IDENTIFIER_SIZE, 0).value| == 3
  {
    var child := Source(2, [], []);
    var kid := Kid(child, [Escaped(START)]);
    var s := Source(1, [], [kid]);
    file := WILDCARD + [START, 1, START, 2, END, ESCAPE, START, END];
    assert Print(child) == [START, 2, END];
    BytesSnoc([], Escaped(START));
    assert [] + [Escaped(START)] == [Escaped(START)];
    PrintKidsSnoc([], kid);
    assert [] + [kid] == [kid];
    assert Print(s) == [START, 1, START, 2, END, ESCAPE, START, END];
    assert file[4..] == Print(s) + Bytes([]);
    assert IsFile(file, WILDCARD, s, []);
    PrintedIsAccepted(file, WILDCARD, s, []);
    n := Layout(s, IDENTIFIER_SIZE);
    assert file[4..12] == Print(s);
    LayoutDecodes(file, s, IDENTIFIER_SIZE);
    var t := Meaning(s);
    assert t.children == [Meaning(child)];
    assert PreorderAll(t.children, 1) == PreorderAll([], 1) + Preorder(Meaning(child), 1) by {
      assert t.children[..0] == [];
    }
    assert PreorderAll(Meaning(child).children, 2) == [];
    ExtraNode(file);
  }

  lemma ExtraNode(file: seq<byte>)
    requires file == WILDCARD + [START, 1, START, 2, END, ESCAPE, START, END]
    ensures Listing(file, IDENTIFIER_SIZE, 0) == Some([Entry(1, 0, []), Entry(2, 1, []), Entry(END, 1, [])])
  {
    assert Listing(file, 12, 2) == Some([]);
    assert Props(file, 12) == Some(([], 12));
    assert [Entry(END, 1, [])] + [] == [Entry(END, 1, [])];
    assert Listing(file, 10, 1) == Prepend([Entry(END, 1, [])], Listing(file, 12, 2));
    assert Listing(file, 8, 2) == Listing(file, 9, 1) == Listing(file, 10, 1);
    assert Props(file, 8) == Some(([], 8));
    assert Listing(file, 6, 1) == Prepend([Entry(2, 1, [])], Listing(file, 8, 2));
    assert Props(file, 6) == Some(([], 6));
    assert Listing(file, 4, 0) == Prepend([Entry(1, 0, [])], Listing(file, 6, 1));
    assert [Entry(1, 0, [])] + ([Entry(2, 1, [])] + [Entry(END, 1, [])])
           == [Entry(1, 0, []), Entry(2, 1, []), Entry(END, 1, [])];
  }
}
