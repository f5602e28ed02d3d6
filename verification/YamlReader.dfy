/**
 * `_Reader`: the indentation-based reader of workflow files, with anchors and aliases.
 *
 * A line is its indentation and two readings of its text: as an item of a sequence, if it starts
 * with a dash, and as a key with what follows it, if the key pattern matches.
 */
module YamlReader {
  import opened Options

  /** What follows a key on its line, an anchor aside. */
  datatype Rest = Nothing | Alias(name: string) | Flow(items: seq<string>) | Plain(text: string)

  datatype Pair = Pair(key: string, anchor: Option<string>, rest: Rest)

  datatype Line = Line(indent: nat, item: Option<string>, pair: Option<Pair>)

  /** What the reader builds. A dictionary keeps the order its keys came in. */
  datatype Value = Null | Text(text: string) | List(items: seq<string>) | Dict(entries: seq<(string, Value)>)

  type Anchors = map<string, Value>

  datatype Error = UnexpectedIndent | UnknownAlias(name: string)

  /** A value, the lines after it and the anchors by then, or the error the reader raises. */
  datatype Outcome = Read(value: Value, left: seq<Line>, anchors: Anchors) | Failed(error: Error)

  function Put(entries: seq<(string, Value)>, key: string, value: Value): seq<(string, Value)> {
    if entries == [] then [(key, value)]
    else if entries[0].0 == key then [(key, value)] + entries[1..]
    else [entries[0]] + Put(entries[1..], key, value)
  }

  function Anchored(anchors: Anchors, anchor: Option<string>, value: Value): Anchors {
    if anchor.Some? then anchors[anchor.value := value] else anchors
  }

  // -------------------------------------------------------------------------
  // What the reader computes
  // -------------------------------------------------------------------------

  function ParseOf(ls: seq<Line>, anchors: Anchors, indent: nat): (r: Outcome)
    ensures r.Read? ==> |r.left| <= |ls|
    decreases |ls|, 1
  {
    if ls == [] || ls[0].indent < indent then Read(Null, ls, anchors)
    else if ls[0].item.Some? then Read(List(ItemsOf(ls, ls[0].indent)), AfterItems(ls, ls[0].indent), anchors)
    else MappingOf(ls, anchors, ls[0].indent, [])
  }

  function ItemsOf(ls: seq<Line>, indent: nat): seq<string> {
    if ls == [] || ls[0].indent != indent || ls[0].item.None? then []
    else [ls[0].item.value] + ItemsOf(ls[1..], indent)
  }

  function AfterItems(ls: seq<Line>, indent: nat): (left: seq<Line>)
    ensures |left| <= |ls|
  {
    if ls == [] || ls[0].indent != indent || ls[0].item.None? then ls
    else AfterItems(ls[1..], indent)
  }

  function MappingOf(ls: seq<Line>, anchors: Anchors, indent: nat, node: seq<(string, Value)>): (r: Outcome)
    ensures r.Read? ==> |r.left| <= |ls|
    decreases |ls|, 0
  {
    if ls == [] || ls[0].indent < indent then Read(Dict(node), ls, anchors)
    else if ls[0].indent > indent then Failed(UnexpectedIndent)
    else if ls[0].pair.None? then Read(Dict(node), ls, anchors)
    else
      var pair := ls[0].pair.value;
      var v := ValueOf(ls[1..], anchors, pair, indent);
      if v.Failed? then v else MappingOf(v.left, v.anchors, indent, Put(node, pair.key, v.value))
  }

  function ValueOf(ls: seq<Line>, anchors: Anchors, pair: Pair, indent: nat): (r: Outcome)
    ensures r.Read? ==> |r.left| <= |ls|
    decreases |ls|, 2
  {
    var v := match pair.rest
      case Alias(name) => if name in anchors then Read(anchors[name], ls, anchors) else Failed(UnknownAlias(name))
      case Flow(items) => Read(List(items), ls, anchors)
      case Plain(text) => Read(Text(text), ls, anchors)
      case Nothing => ParseOf(ls, anchors, indent + 1);
    if v.Failed? then v else Read(v.value, v.left, Anchored(v.anchors, pair.anchor, v.value))
  }

  function SkipBlockOf(ls: seq<Line>): (left: seq<Line>)
    ensures |left| <= |ls|
  {
    if ls == [] || ls[0].indent == 0 then ls else SkipBlockOf(ls[1..])
  }

  function DocumentOf(ls: seq<Line>, anchors: Anchors, wanted: set<string>, node: seq<(string, Value)>): Outcome
    decreases |ls|
  {
    if ls == [] then Read(Dict(node), ls, anchors)
    else if ls[0].indent != 0 || ls[0].pair.None? then DocumentOf(ls[1..], anchors, wanted, node)
    else
      var pair := ls[0].pair.value;
      if pair.key in wanted then
        var v := ValueOf(ls[1..], anchors, pair, 0);
        if v.Failed? then v else DocumentOf(v.left, v.anchors, wanted, Put(node, pair.key, v.value))
      else DocumentOf(SkipBlockOf(ls[1..]), anchors, wanted, node)
  }

  /** One key more, with what follows it. */
  lemma {:induction false} MappingGoesOn(ls: seq<Line>, anchors: Anchors, indent: nat, node: seq<(string, Value)>)
    requires ls != [] && ls[0].indent == indent && ls[0].pair.Some?
    ensures var pair := ls[0].pair.value; var v := ValueOf(ls[1..], anchors, pair, indent);
      MappingOf(ls, anchors, indent, node) ==
      if v.Failed? then v else MappingOf(v.left, v.anchors, indent, Put(node, pair.key, v.value))
  {
  }

  // -------------------------------------------------------------------------
  // What is read are dictionaries
  // -------------------------------------------------------------------------

  /** No key is in the dictionary twice. */
  predicate KeysOnce(entries: seq<(string, Value)>) {
    forall i, j | 0 <= i < j < |entries| :: entries[i].0 != entries[j].0
  }

  /** So at every level. */
  predicate Proper(v: Value) {
    v.Dict? ==> KeysOnce(v.entries) && forall i | 0 <= i < |v.entries| :: Proper(v.entries[i].1)
  }

  predicate AllProper(anchors: Anchors) { forall name | name in anchors :: Proper(anchors[name]) }

  /** `r` is `entries` with `key` set, in its place if it was there and else at the end. */
  predicate SetAt(entries: seq<(string, Value)>, key: string, value: Value, r: seq<(string, Value)>, at: nat) {
    if at < |entries| then entries[at].0 == key && r == entries[at := (key, value)]
    else r == entries + [(key, value)] && forall i | 0 <= i < |entries| :: entries[i].0 != key
  }

  /** Setting a key sets that key and no other. */
  lemma {:induction false} PutSets(entries: seq<(string, Value)>, key: string, value: Value) returns (at: nat)
    ensures SetAt(entries, key, value, Put(entries, key, value), at)
  {
    if entries == [] || entries[0].0 == key {
      at := 0;
    } else {
      var later := PutSets(entries[1..], key, value);
      at := later + 1;
      assert entries == [entries[0]] + entries[1..];
      assert forall i | 1 <= i < |entries| :: entries[i] == entries[1..][i - 1];
    }
  }

  lemma {:induction false} PutIsProper(entries: seq<(string, Value)>, key: string, value: Value)
    requires Proper(Dict(entries)) && Proper(value)
    ensures Proper(Dict(Put(entries, key, value)))
  {
    var at := PutSets(entries, key, value);
    var r := Put(entries, key, value);
    forall i, j | 0 <= i < j < |r| ensures r[i].0 != r[j].0 {
      if j < |entries| { assert entries[i].0 != entries[j].0; }
    }
  }

  lemma {:induction false} BlocksAreProper(ls: seq<Line>, anchors: Anchors, indent: nat)
    requires AllProper(anchors)
    ensures var r := ParseOf(ls, anchors, indent); r.Read? ==> Proper(r.value) && AllProper(r.anchors)
    decreases |ls|, 1
  {
    if ls != [] && ls[0].indent >= indent && ls[0].item.None? { MappingsAreProper(ls, anchors, ls[0].indent, []); }
  }

  lemma {:induction false} MappingsAreProper(ls: seq<Line>, anchors: Anchors, indent: nat, node: seq<(string, Value)>)
    requires AllProper(anchors) && Proper(Dict(node))
    ensures var r := MappingOf(ls, anchors, indent, node); r.Read? ==> Proper(r.value) && AllProper(r.anchors)
    decreases |ls|, 0
  {
    if ls != [] && ls[0].indent == indent && ls[0].pair.Some? {
      var pair := ls[0].pair.value;
      ValuesAreProper(ls[1..], anchors, pair, indent);
      var v := ValueOf(ls[1..], anchors, pair, indent);
      if v.Read? {
        PutIsProper(node, pair.key, v.value);
        MappingsAreProper(v.left, v.anchors, indent, Put(node, pair.key, v.value));
      }
    }
  }

  lemma {:induction false} ValuesAreProper(ls: seq<Line>, anchors: Anchors, pair: Pair, indent: nat)
    requires AllProper(anchors)
    ensures var r := ValueOf(ls, anchors, pair, indent); r.Read? ==> Proper(r.value) && AllProper(r.anchors)
    decreases |ls|, 2
  {
    if pair.rest.Nothing? { BlocksAreProper(ls, anchors, indent + 1); }
  }

  /** Whatever the lines, what the reader makes of them has no key twice anywhere. */
  lemma {:induction false} DocumentsAreProper(ls: seq<Line>, anchors: Anchors, wanted: set<string>,
                                              node: seq<(string, Value)>)
    requires AllProper(anchors) && Proper(Dict(node))
    ensures var r := DocumentOf(ls, anchors, wanted, node); r.Read? ==> r.value.Dict? && Proper(r.value) && r.left == []
    decreases |ls|
  {
    if ls != [] {
      if ls[0].indent != 0 || ls[0].pair.None? {
        DocumentsAreProper(ls[1..], anchors, wanted, node);
      } else if ls[0].pair.value.key in wanted {
        var pair := ls[0].pair.value;
        ValuesAreProper(ls[1..], anchors, pair, 0);
        var v := ValueOf(ls[1..], anchors, pair, 0);
        if v.Read? {
          PutIsProper(node, pair.key, v.value);
          DocumentsAreProper(v.left, v.anchors, wanted, Put(node, pair.key, v.value));
        }
      } else {
        DocumentsAreProper(SkipBlockOf(ls[1..]), anchors, wanted, node);
      }
    }
  }

  // -------------------------------------------------------------------------
  // The reader
  // -------------------------------------------------------------------------

  datatype Result<T> = Ok(value: T) | Err(error: Error)

  class Reader {
    const lines: seq<Line>
    var pos: nat
    var anchors: Anchors

    ghost predicate Valid()
      reads this
    {
      pos <= |lines|
    }

    /** The lines not read yet. */
    ghost function Left(): seq<Line>
      requires Valid()
      reads this
    {
      lines[pos..]
    }

    constructor (lines: seq<Line>)
      ensures Valid() && Left() == lines && anchors == map[] && this.lines == lines
    {
      this.lines, pos, anchors := lines, 0, map[];
    }

    function Peek(): Option<Line>
      requires Valid()
      reads this
    {
      if pos < |lines| then Some(lines[pos]) else None
    }

    /** The block at `indent` or deeper. */
    method Parse(indent: nat) returns (r: Result<Value>)
      requires Valid()
      modifies this
      ensures Valid() && old(pos) <= pos
      ensures match r
        case Ok(v) => ParseOf(old(Left()), old(anchors), indent) == Read(v, Left(), anchors)
        case Err(e) => ParseOf(old(Left()), old(anchors), indent) == Failed(e)
      decreases |lines| - pos, 1
    {
      var head := Peek();
      if head.None? || head.value.indent < indent {
        return Ok(Null);
      }
      if head.value.item.Some? {
        var items := Sequence(head.value.indent);
        return Ok(List(items));
      }
      r := Mapping(head.value.indent);
    }

    method Sequence(indent: nat) returns (items: seq<string>)
      requires Valid()
      modifies `pos
      ensures Valid() && old(pos) <= pos
      ensures items == ItemsOf(old(Left()), indent) && Left() == AfterItems(old(Left()), indent)
    {
      items := [];
      while true
        invariant Valid() && old(pos) <= pos
        invariant items + ItemsOf(Left(), indent) == ItemsOf(old(Left()), indent)
        invariant AfterItems(Left(), indent) == AfterItems(old(Left()), indent)
        decreases |lines| - pos
      {
        var head := Peek();
        if head.None? || head.value.indent != indent || head.value.item.None? {
          break;
        }
        assert Left()[1..] == lines[pos + 1..];
        pos := pos + 1;
        items := items + [head.value.item.value];
      }
    }

    method Mapping(indent: nat) returns (r: Result<Value>)
      requires Valid()
      modifies this
      ensures Valid() && old(pos) <= pos
      ensures match r
        case Ok(v) => MappingOf(old(Left()), old(anchors), indent, []) == Read(v, Left(), anchors)
        case Err(e) => MappingOf(old(Left()), old(anchors), indent, []) == Failed(e)
      decreases |lines| - pos, 0
    {
      var node: seq<(string, Value)> := [];
      while true
        invariant Valid() && old(pos) <= pos
        invariant MappingOf(Left(), anchors, indent, node) == MappingOf(old(Left()), old(anchors), indent, [])
        decreases |lines| - pos
      {
        var head := Peek();
        if head.None? || head.value.indent < indent {
          break;
        }
        if head.value.indent > indent {
          return Err(UnexpectedIndent);
        }
        if head.value.pair.None? {
          break;
        }
        MappingGoesOn(Left(), anchors, indent, node);
        assert Left()[1..] == lines[pos + 1..];
        pos := pos + 1;
        var pair := head.value.pair.value;
        var v := ValueAfter(pair, indent);
        if v.Err? {
          return v;
        }
        node := Put(node, pair.key, v.value);
      }
      r := Ok(Dict(node));
    }

    /** What follows a key, and its anchor. */
    method ValueAfter(pair: Pair, indent: nat) returns (r: Result<Value>)
      requires Valid()
      modifies this
      ensures Valid() && old(pos) <= pos
      ensures match r
        case Ok(v) => ValueOf(old(Left()), old(anchors), pair, indent) == Read(v, Left(), anchors)
        case Err(e) => ValueOf(old(Left()), old(anchors), pair, indent) == Failed(e)
      decreases |lines| - pos, 2
    {
      match pair.rest {
        case Alias(name) =>
          if name !in anchors {
            return Err(UnknownAlias(name));
          }
          r := Ok(anchors[name]);
        case Flow(items) => r := Ok(List(items));
        case Plain(text) => r := Ok(Text(text));
        case Nothing =>
          r := Parse(indent + 1);
          if r.Err? {
            return;
          }
      }
      if pair.anchor.Some? {
        anchors := anchors[pair.anchor.value := r.value];
      }
    }

    method SkipBlock()
      requires Valid()
      modifies `pos
      ensures Valid() && old(pos) <= pos && Left() == SkipBlockOf(old(Left()))
    {
      while true
        invariant Valid() && old(pos) <= pos && SkipBlockOf(Left()) == SkipBlockOf(old(Left()))
        decreases |lines| - pos
      {
        var head := Peek();
        if head.None? || head.value.indent == 0 {
          break;
        }
        assert Left()[1..] == lines[pos + 1..];
        pos := pos + 1;
      }
    }

    /** The top-level keys that are wanted, the rest stepped over. */
    method Document(wanted: set<string>) returns (r: Result<Value>)
      requires Valid()
      modifies this
      ensures Valid()
      ensures match r
        case Ok(v) => DocumentOf(old(Left()), old(anchors), wanted, []) == Read(v, Left(), anchors)
        case Err(e) => DocumentOf(old(Left()), old(anchors), wanted, []) == Failed(e)
    {
      var node: seq<(string, Value)> := [];
      while true
        invariant Valid()
        invariant DocumentOf(Left(), anchors, wanted, node) == DocumentOf(old(Left()), old(anchors), wanted, [])
        decreases |lines| - pos
      {
        var head := Peek();
        if head.None? {
          break;
        }
        assert Left()[1..] == lines[pos + 1..];
        pos := pos + 1;
        if head.value.indent != 0 || head.value.pair.None? {
          continue;
        }
        var pair := head.value.pair.value;
        if pair.key in wanted {
          var v := ValueAfter(pair, 0);
          if v.Err? {
            return v;
          }
          node := Put(node, pair.key, v.value);
        } else {
          SkipBlock();
        }
      }
      r := Ok(Dict(node));
    }
  }

  // -------------------------------------------------------------------------
  // Trees and their print
  // -------------------------------------------------------------------------

  /** What can be written: a value on its key's line, or a block under it, `step` columns deeper
      than it has to be. */
  datatype Tree =
    | Empty
    | Scalar(text: string)
    | Inline(items: seq<string>)
    | Reference(name: string)
    | Items(step: nat, items: seq<string>)
    | Mapping(step: nat, entries: Entries)

  datatype Entries = End | Entry(key: string, anchor: Option<string>, value: Tree, more: Entries)

  /** Blocks are not empty. */
  predicate Writable(t: Tree) {
    match t
    case Items(_, items) => items != []
    case Mapping(_, entries) => entries.Entry? && AllWritable(entries)
    case _ => true
  }

  predicate AllWritable(es: Entries) {
    es.Entry? ==> Writable(es.value) && AllWritable(es.more)
  }

  function RestOf(t: Tree): Rest {
    match t
    case Scalar(text) => Plain(text)
    case Inline(items) => Flow(items)
    case Reference(name) => Alias(name)
    case _ => Nothing
  }

  /** The lines of a sequence. `asPair` is what the key pattern makes of an item. */
  function PrintItems(items: seq<string>, indent: nat, asPair: string -> Option<Pair>): seq<Line> {
    if items == [] then []
    else [Line(indent, Some(items[0]), asPair(items[0]))] + PrintItems(items[1..], indent, asPair)
  }

  /** The lines under a key. */
  function PrintBlock(t: Tree, indent: nat, asPair: string -> Option<Pair>): seq<Line>
    decreases t, 0
  {
    match t
    case Items(step, items) => PrintItems(items, indent + 1 + step, asPair)
    case Mapping(step, entries) => Print(entries, indent + 1 + step, asPair)
    case _ => []
  }

  function Print(es: Entries, indent: nat, asPair: string -> Option<Pair>): seq<Line>
    decreases es, 1
  {
    if es.End? then []
    else
      [Line(indent, None, Some(Pair(es.key, es.anchor, RestOf(es.value))))] +
      PrintBlock(es.value, indent, asPair) + Print(es.more, indent, asPair)
  }

  /** What a tree means: its value and the anchors after it, aliases looked up as they come. */
  datatype Meaning = Means(value: Value, anchors: Anchors) | Undefined(name: string)

  function Eval(t: Tree, anchors: Anchors): Meaning {
    match t
    case Empty => Means(Null, anchors)
    case Scalar(text) => Means(Text(text), anchors)
    case Inline(items) => Means(List(items), anchors)
    case Reference(name) => if name in anchors then Means(anchors[name], anchors) else Undefined(name)
    case Items(_, items) => Means(List(items), anchors)
    case Mapping(_, entries) => EvalAll(entries, anchors, [])
  }

  function EvalAll(es: Entries, anchors: Anchors, node: seq<(string, Value)>): (m: Meaning)
    ensures m.Means? ==> m.value.Dict?
  {
    if es.End? then Means(Dict(node), anchors)
    else
      var v := Eval(es.value, anchors);
      if v.Undefined? then v
      else EvalAll(es.more, Anchored(v.anchors, es.anchor, v.value), Put(node, es.key, v.value))
  }

  /** What a reading should be, given the meaning and the lines that follow. */
  function Reading(m: Meaning, left: seq<Line>): Outcome {
    if m.Means? then Read(m.value, left, m.anchors) else Failed(UnknownAlias(m.name))
  }

  /** Nothing that follows is as deep as `indent`. */
  predicate Below(left: seq<Line>, indent: nat) { left == [] || left[0].indent < indent }

  // -------------------------------------------------------------------------
  // Round trips
  // -------------------------------------------------------------------------

  lemma {:induction false} ItemsRoundTrip(items: seq<string>, indent: nat, asPair: string -> Option<Pair>,
                                          left: seq<Line>)
    requires Below(left, indent)
    ensures ItemsOf(PrintItems(items, indent, asPair) + left, indent) == items
    ensures AfterItems(PrintItems(items, indent, asPair) + left, indent) == left
  {
    var ls := PrintItems(items, indent, asPair) + left;
    if items == [] {
      assert ls == left;
    } else {
      assert ls[1..] == PrintItems(items[1..], indent, asPair) + left;
      ItemsRoundTrip(items[1..], indent, asPair, left);
    }
  }

  /** Reading what was printed for a key gives the tree's meaning and stops where the print did. */
  lemma {:induction false} ValueRoundTrip(t: Tree, anchor: Option<string>, key: string, anchors: Anchors, indent: nat,
                                          asPair: string -> Option<Pair>, left: seq<Line>)
    requires Writable(t) && Below(left, indent + 1)
    ensures var m := Eval(t, anchors);
      ValueOf(PrintBlock(t, indent, asPair) + left, anchors, Pair(key, anchor, RestOf(t)), indent) ==
      Reading(if m.Means? then m.(anchors := Anchored(m.anchors, anchor, m.value)) else m, left)
    decreases t, 0
  {
    var ls := PrintBlock(t, indent, asPair) + left;
    match t
    case Items(step, items) =>
      ItemsRoundTrip(items, indent + 1 + step, asPair, left);
      assert ls[0].indent == indent + 1 + step;
    case Mapping(step, entries) =>
      MappingRoundTrip(entries, anchors, indent + 1 + step, [], asPair, left);
      assert ls[0] == Print(entries, indent + 1 + step, asPair)[0];
    case _ =>
      assert ls == left;
  }

  /** Reading a printed mapping gives its meaning: every key's value, in order, with aliases looked
      up, or the error of the first alias that has no anchor. */
  lemma {:induction false} MappingRoundTrip(es: Entries, anchors: Anchors, indent: nat, node: seq<(string, Value)>,
                                            asPair: string -> Option<Pair>, left: seq<Line>)
    requires AllWritable(es) && Below(left, indent)
    ensures MappingOf(Print(es, indent, asPair) + left, anchors, indent, node) ==
      Reading(EvalAll(es, anchors, node), left)
    decreases es, 1
  {
    var ls := Print(es, indent, asPair) + left;
    if es.End? {
      assert ls == left;
    } else {
      var after := Print(es.more, indent, asPair) + left;
      assert ls[1..] == PrintBlock(es.value, indent, asPair) + after;
      assert Below(after, indent + 1);
      ValueRoundTrip(es.value, es.anchor, es.key, anchors, indent, asPair, after);
      var v := Eval(es.value, anchors);
      if v.Means? {
        MappingRoundTrip(es.more, Anchored(v.anchors, es.anchor, v.value), indent, Put(node, es.key, v.value),
                         asPair, left);
      }
    }
  }

  predicate HasKey(entries: seq<(string, Value)>, key: string) { exists e | e in entries :: e.0 == key }

  predicate Mentions(es: Entries, key: string) { es.Entry? && (es.key == key || Mentions(es.more, key)) }

  /** No mapping in it has a key twice. */
  predicate KeysDiffer(t: Tree) { t.Mapping? ==> AllKeysDiffer(t.entries) }

  predicate AllKeysDiffer(es: Entries) {
    es.Entry? ==> !Mentions(es.more, es.key) && KeysDiffer(es.value) && AllKeysDiffer(es.more)
  }

  /** What a tree says as it is written: a mapping is its keys with their values, one after another. */
  function Written(t: Tree, anchors: Anchors): Meaning {
    match t
    case Mapping(_, entries) => WrittenAll(entries, anchors)
    case Reference(name) => if name in anchors then Means(anchors[name], anchors) else Undefined(name)
    case Empty => Means(Null, anchors)
    case Scalar(text) => Means(Text(text), anchors)
    case Inline(items) => Means(List(items), anchors)
    case Items(_, items) => Means(List(items), anchors)
  }

  function WrittenAll(es: Entries, anchors: Anchors): (m: Meaning)
    ensures m.Means? ==> m.value.Dict?
  {
    if es.End? then Means(Dict([]), anchors)
    else
      var v := Written(es.value, anchors);
      if v.Undefined? then v
      else
        var more := WrittenAll(es.more, Anchored(v.anchors, es.anchor, v.value));
        if more.Undefined? then more else Means(Dict([(es.key, v.value)] + more.value.entries), more.anchors)
  }

  lemma {:induction false} PutAppends(node: seq<(string, Value)>, key: string, value: Value)
    requires !HasKey(node, key)
    ensures Put(node, key, value) == node + [(key, value)]
  {
    if node != [] {
      assert node[0] in node && forall e | e in node[1..] :: e in node;
      PutAppends(node[1..], key, value);
    }
  }

  /** With keys that differ at every level, nothing is overwritten: a tree means what is written. */
  lemma {:induction false} MeansWhatIsWritten(t: Tree, anchors: Anchors)
    requires KeysDiffer(t)
    ensures Eval(t, anchors) == Written(t, anchors)
    decreases t, 0
  {
    if t.Mapping? { EntriesAreKept(t.entries, anchors, []); }
  }

  lemma {:induction false} EntriesAreKept(es: Entries, anchors: Anchors, node: seq<(string, Value)>)
    requires AllKeysDiffer(es) && forall e | e in node :: !Mentions(es, e.0)
    ensures var m := WrittenAll(es, anchors);
      EvalAll(es, anchors, node) == if m.Means? then m.(value := Dict(node + m.value.entries)) else m
    decreases es, 1
  {
    if es.End? {
      assert node + [] == node;
    } else {
      MeansWhatIsWritten(es.value, anchors);
      var v := Written(es.value, anchors);
      if v.Means? {
        var later := Anchored(v.anchors, es.anchor, v.value);
        var more := node + [(es.key, v.value)];
        PutAppends(node, es.key, v.value);
        forall e | e in more ensures !Mentions(es.more, e.0) {
          if e in node { assert !Mentions(es, e.0); }
        }
        EntriesAreKept(es.more, later, more);
        var rest := WrittenAll(es.more, later);
        if rest.Means? { assert more + rest.value.entries == node + ([(es.key, v.value)] + rest.value.entries); }
      }
    }
  }

  /** A printed mapping whose keys differ at every level reads as it is written: every key with its
      value, in order, at every depth, or the error of the first alias that has no anchor. */
  lemma DistinctKeysAreKept(es: Entries, anchors: Anchors, indent: nat, asPair: string -> Option<Pair>,
                            left: seq<Line>)
    requires AllWritable(es) && AllKeysDiffer(es) && Below(left, indent)
    ensures MappingOf(Print(es, indent, asPair) + left, anchors, indent, []) == Reading(WrittenAll(es, anchors), left)
  {
    MappingRoundTrip(es, anchors, indent, [], asPair, left);
    EntriesAreKept(es, anchors, []);
    if WrittenAll(es, anchors).Means? {
      assert [] + WrittenAll(es, anchors).value.entries == WrittenAll(es, anchors).value.entries;
    }
  }

  /** A block that is read consumes a line: one that consumes none is empty, and so the recursion
      of the reader ends on every input. */
  lemma BlocksConsumeLines(ls: seq<Line>, anchors: Anchors, indent: nat)
    requires ParseOf(ls, anchors, indent).Read? && |ParseOf(ls, anchors, indent).left| == |ls|
    ensures ParseOf(ls, anchors, indent).value in {Null, Dict([])} && ParseOf(ls, anchors, indent).left == ls
    ensures ls == [] || ls[0].indent < indent || (ls[0].item.None? && ls[0].pair.None?)
  {
    if ls != [] {
      assert |AfterItems(ls[1..], ls[0].indent)| < |ls|;
    }
  }

  /** The last value of a mapping stands on its key's line. */
  predicate EndsInline(es: Entries) {
    es.Entry? && if es.more.Entry? then EndsInline(es.more) else !RestOf(es.value).Nothing?
  }

  /** A line deeper than the mapping, after a value on its key's line, is refused: the reader raises,
      unless an alias before it has no anchor. */
  lemma {:induction false} DeeperLineIsRefused(es: Entries, anchors: Anchors, indent: nat, node: seq<(string, Value)>,
                                               asPair: string -> Option<Pair>, left: seq<Line>)
    requires AllWritable(es) && EndsInline(es) && left != [] && left[0].indent > indent
    ensures var m := EvalAll(es, anchors, node);
      MappingOf(Print(es, indent, asPair) + left, anchors, indent, node) ==
      Failed(if m.Means? then UnexpectedIndent else UnknownAlias(m.name))
    decreases es
  {
    if es.more.Entry? {
      var ls := Print(es, indent, asPair) + left;
      var after := Print(es.more, indent, asPair) + left;
      assert ls[1..] == PrintBlock(es.value, indent, asPair) + after;
      assert Below(after, indent + 1);
      ValueRoundTrip(es.value, es.anchor, es.key, anchors, indent, asPair, after);
      MappingGoesOn(ls, anchors, indent, node);
      var v := Eval(es.value, anchors);
      if v.Means? {
        DeeperLineIsRefused(es.more, Anchored(v.anchors, es.anchor, v.value), indent, Put(node, es.key, v.value),
                            asPair, left);
      }
    } else {
      DeeperAfterLast(es, anchors, indent, node, asPair, left);
    }
  }

  lemma {:induction false} DeeperAfterLast(es: Entries, anchors: Anchors, indent: nat, node: seq<(string, Value)>,
                                           asPair: string -> Option<Pair>, left: seq<Line>)
    requires es.Entry? && es.more.End? && !RestOf(es.value).Nothing? && left != [] && left[0].indent > indent
    ensures var m := EvalAll(es, anchors, node);
      MappingOf(Print(es, indent, asPair) + left, anchors, indent, node) ==
      Failed(if m.Means? then UnexpectedIndent else UnknownAlias(m.name))
  {
    var ls := Print(es, indent, asPair) + left;
    var pair := Pair(es.key, es.anchor, RestOf(es.value));
    assert Print(es, indent, asPair) == [Line(indent, None, Some(pair))];
    assert ls[1..] == left;
    MappingGoesOn(ls, anchors, indent, node);
  }

  // -------------------------------------------------------------------------
  // Aliases
  // -------------------------------------------------------------------------

  /** No anchor and no alias in it. */
  predicate Ground(t: Tree) {
    match t
    case Reference(_) => false
    case Mapping(_, entries) => AllGround(entries)
    case _ => true
  }

  predicate AllGround(es: Entries) {
    es.Entry? ==> es.anchor.None? && Ground(es.value) && AllGround(es.more)
  }

  datatype Expansion<T> = Expanded(tree: T, copies: map<string, Tree>) | Unknown(name: string)

  /** The tree with every alias written out, and the copies that later aliases stand for. */
  function Expand(t: Tree, copies: map<string, Tree>): Expansion<Tree> {
    match t
    case Reference(name) => if name in copies then Expanded(copies[name], copies) else Unknown(name)
    case Mapping(step, entries) =>
      var x := ExpandAll(entries, copies);
      if x.Unknown? then Unknown(x.name) else Expanded(Mapping(step, x.tree), x.copies)
    case _ => Expanded(t, copies)
  }

  function ExpandAll(es: Entries, copies: map<string, Tree>): Expansion<Entries> {
    if es.End? then Expanded(End, copies)
    else
      var v := Expand(es.value, copies);
      if v.Unknown? then Unknown(v.name)
      else
        var later := if es.anchor.Some? then v.copies[es.anchor.value := v.tree] else v.copies;
        var more := ExpandAll(es.more, later);
        if more.Unknown? then more else Expanded(Entry(es.key, None, v.tree, more.tree), more.copies)
  }

  /** Each copy is written out, and means what its anchor holds. */
  ghost predicate Agree(anchors: Anchors, copies: map<string, Tree>) {
    anchors.Keys == copies.Keys &&
    forall n | n in anchors :: Ground(copies[n]) && Writable(copies[n]) &&
      Eval(copies[n], map[]) == Means(anchors[n], map[])
  }

  /** A tree with no anchors and no aliases means the same anywhere, and anchors nothing. */
  lemma {:induction false} GroundMeansTheSame(t: Tree, a: Anchors, b: Anchors)
    requires Ground(t)
    ensures Eval(t, a).Means? && Eval(t, b).Means? && Eval(t, a).value == Eval(t, b).value && Eval(t, a).anchors == a
    decreases t, 0
  {
    if t.Mapping? { AllGroundMeanTheSame(t.entries, a, b, []); }
  }

  lemma {:induction false} AllGroundMeanTheSame(es: Entries, a: Anchors, b: Anchors, node: seq<(string, Value)>)
    requires AllGround(es)
    ensures EvalAll(es, a, node).Means? && EvalAll(es, b, node).Means?
    ensures EvalAll(es, a, node).value == EvalAll(es, b, node).value && EvalAll(es, a, node).anchors == a
    decreases es, 1
  {
    if es.Entry? {
      GroundMeansTheSame(es.value, a, b);
      GroundMeansTheSame(es.value, b, a);
      AllGroundMeanTheSame(es.more, a, b, Put(node, es.key, Eval(es.value, a).value));
    }
  }

  lemma {:induction false} ExpansionMeansTheSame(t: Tree, anchors: Anchors, copies: map<string, Tree>)
    requires Writable(t) && Agree(anchors, copies)
    ensures var x := Expand(t, copies); var m := Eval(t, anchors);
      if x.Unknown? then m == Undefined(x.name)
      else m.Means? && Ground(x.tree) && Writable(x.tree) &&
           Eval(x.tree, map[]) == Means(m.value, map[]) && Agree(m.anchors, x.copies)
    decreases t, 0
  {
    if t.Mapping? {
      AllExpansionsMeanTheSame(t.entries, anchors, copies, []);
      if ExpandAll(t.entries, copies).Expanded? {
        AllGroundMeanTheSame(ExpandAll(t.entries, copies).tree, map[], map[], []);
      }
    }
  }

  lemma {:induction false} AllExpansionsMeanTheSame(es: Entries, anchors: Anchors, copies: map<string, Tree>,
                                                    node: seq<(string, Value)>)
    requires AllWritable(es) && Agree(anchors, copies)
    ensures var x := ExpandAll(es, copies); var m := EvalAll(es, anchors, node);
      if x.Unknown? then m == Undefined(x.name)
      else m.Means? && AllGround(x.tree) && AllWritable(x.tree) && (x.tree.End? <==> es.End?) &&
           EvalAll(x.tree, map[], node) == Means(m.value, map[]) && Agree(m.anchors, x.copies)
    decreases es, 1
  {
    if es.Entry? {
      ExpansionMeansTheSame(es.value, anchors, copies);
      var v, m := Expand(es.value, copies), Eval(es.value, anchors);
      if v.Expanded? {
        var later := if es.anchor.Some? then v.copies[es.anchor.value := v.tree] else v.copies;
        AllExpansionsMeanTheSame(es.more, Anchored(m.anchors, es.anchor, m.value), later, Put(node, es.key, m.value));
      }
    }
  }

  /** A mapping with anchors and aliases reads exactly like the same mapping with every aliased
      value written out again; and it fails only where an alias has no anchor before it. */
  lemma AliasesReadAsWrittenOut(es: Entries, indent: nat, asPair: string -> Option<Pair>)
    requires AllWritable(es)
    ensures var r := MappingOf(Print(es, indent, asPair), map[], indent, []);
      var x := ExpandAll(es, map[]);
      if x.Unknown? then r == Failed(UnknownAlias(x.name))
      else AllGround(x.tree) && r.Read? &&
           MappingOf(Print(x.tree, indent, asPair), map[], indent, []) == Read(r.value, [], map[])
  {
    AllExpansionsMeanTheSame(es, map[], map[], []);
    MappingRoundTrip(es, map[], indent, [], asPair, []);
    assert Print(es, indent, asPair) + [] == Print(es, indent, asPair);
    var x := ExpandAll(es, map[]);
    if x.Expanded? {
      MappingRoundTrip(x.tree, map[], indent, [], asPair, []);
      assert Print(x.tree, indent, asPair) + [] == Print(x.tree, indent, asPair);
    }
  }

  // -------------------------------------------------------------------------
  // Documents
  // -------------------------------------------------------------------------

  /** A top-level key: one that is read, or one that is stepped over with everything under it; or a
      top-level line that is no key. */
  datatype Section =
    | Kept(key: string, anchor: Option<string>, value: Tree)
    | Skipped(pair: Pair, under: seq<Line>)
    | Stray(line: Line)

  predicate SectionOk(x: Section, wanted: set<string>) {
    match x
    case Kept(key, _, value) => key in wanted && Writable(value)
    case Skipped(pair, under) => pair.key !in wanted && forall l | l in under :: l.indent > 0
    case Stray(line) => line.indent == 0 && line.pair.None?
  }

  function PrintSection(x: Section, asPair: string -> Option<Pair>): seq<Line> {
    match x
    case Kept(key, anchor, value) =>
      [Line(0, None, Some(Pair(key, anchor, RestOf(value))))] + PrintBlock(value, 0, asPair)
    case Skipped(pair, under) => [Line(0, None, Some(pair))] + under
    case Stray(line) => [line]
  }

  function PrintDocument(xs: seq<Section>, asPair: string -> Option<Pair>): seq<Line> {
    if xs == [] then [] else PrintSection(xs[0], asPair) + PrintDocument(xs[1..], asPair)
  }

  /** The sections that are read, as one mapping. */
  function KeptEntries(xs: seq<Section>): Entries {
    if xs == [] then End
    else if xs[0].Kept? then Entry(xs[0].key, xs[0].anchor, xs[0].value, KeptEntries(xs[1..]))
    else KeptEntries(xs[1..])
  }

  lemma {:induction false} SkippingStops(under: seq<Line>, left: seq<Line>)
    requires Below(left, 1) && forall l | l in under :: l.indent > 0
    ensures SkipBlockOf(under + left) == left
  {
    if under == [] {
      assert under + left == left;
    } else {
      assert (under + left)[1..] == under[1..] + left;
      SkippingStops(under[1..], left);
    }
  }

  /** Reading a wanted section takes in its value and goes on with the lines after it. */
  lemma KeptSectionReads(key: string, anchor: Option<string>, value: Tree, wanted: set<string>, anchors: Anchors,
                         node: seq<(string, Value)>, asPair: string -> Option<Pair>, after: seq<Line>)
    requires key in wanted && Writable(value) && Below(after, 1)
    ensures var v := Eval(value, anchors);
      DocumentOf(PrintSection(Kept(key, anchor, value), asPair) + after, anchors, wanted, node) ==
      if v.Means? then DocumentOf(after, Anchored(v.anchors, anchor, v.value), wanted, Put(node, key, v.value))
      else Failed(UnknownAlias(v.name))
  {
    var ls := PrintSection(Kept(key, anchor, value), asPair) + after;
    assert ls[1..] == PrintBlock(value, 0, asPair) + after;
    ValueRoundTrip(value, anchor, key, anchors, 0, asPair, after);
    WantedLineReads(ls, Pair(key, anchor, RestOf(value)), wanted, anchors, node);
  }

  lemma WantedLineReads(ls: seq<Line>, pair: Pair, wanted: set<string>, anchors: Anchors, node: seq<(string, Value)>)
    requires ls != [] && ls[0] == Line(0, None, Some(pair)) && pair.key in wanted
    ensures var v := ValueOf(ls[1..], anchors, pair, 0);
      DocumentOf(ls, anchors, wanted, node) ==
      if v.Failed? then v else DocumentOf(v.left, v.anchors, wanted, Put(node, pair.key, v.value))
  {
  }

  lemma SkippedSectionReads(pair: Pair, under: seq<Line>, wanted: set<string>, anchors: Anchors,
                            node: seq<(string, Value)>, asPair: string -> Option<Pair>, after: seq<Line>)
    requires pair.key !in wanted && Below(after, 1) && forall l | l in under :: l.indent > 0
    ensures DocumentOf(PrintSection(Skipped(pair, under), asPair) + after, anchors, wanted, node) ==
            DocumentOf(after, anchors, wanted, node)
  {
    var ls := PrintSection(Skipped(pair, under), asPair) + after;
    assert ls[1..] == under + after;
    SkippingStops(under, after);
  }

  lemma {:induction false} SectionsStartAtTheTop(xs: seq<Section>, wanted: set<string>, asPair: string -> Option<Pair>)
    requires forall x | x in xs :: SectionOk(x, wanted)
    ensures Below(PrintDocument(xs, asPair), 1)
  {
    if xs != [] { assert SectionOk(xs[0], wanted) && PrintSection(xs[0], asPair)[0].indent == 0; }
  }

  /** A document reads as its wanted sections alone, whatever stands under the others. */
  lemma {:induction false} DocumentRoundTrip(xs: seq<Section>, wanted: set<string>, anchors: Anchors,
                                             node: seq<(string, Value)>, asPair: string -> Option<Pair>)
    requires forall x | x in xs :: SectionOk(x, wanted)
    ensures DocumentOf(PrintDocument(xs, asPair), anchors, wanted, node) ==
      Reading(EvalAll(KeptEntries(xs), anchors, node), [])
    decreases |xs|
  {
    if xs != [] {
      var x, after := xs[0], PrintDocument(xs[1..], asPair);
      assert SectionOk(x, wanted);
      SectionsStartAtTheTop(xs[1..], wanted, asPair);
      if x.Kept? {
        KeptSectionReads(x.key, x.anchor, x.value, wanted, anchors, node, asPair, after);
        var v := Eval(x.value, anchors);
        if v.Means? {
          DocumentRoundTrip(xs[1..], wanted, Anchored(v.anchors, x.anchor, v.value), Put(node, x.key, v.value), asPair);
        }
      } else if x.Stray? {
        assert ([x.line] + after)[1..] == after;
        DocumentRoundTrip(xs[1..], wanted, anchors, node, asPair);
      } else {
        SkippedSectionReads(x.pair, x.under, wanted, anchors, node, asPair, after);
        DocumentRoundTrip(xs[1..], wanted, anchors, node, asPair);
      }
    }
  }

  /** A document with every alias under its wanted keys written out. */
  function ExpandSections(xs: seq<Section>, copies: map<string, Tree>): Expansion<seq<Section>> {
    if xs == [] then Expanded([], copies)
    else if !xs[0].Kept? then
      var more := ExpandSections(xs[1..], copies);
      if more.Unknown? then more else Expanded([xs[0]] + more.tree, more.copies)
    else
      var v := Expand(xs[0].value, copies);
      if v.Unknown? then Unknown(v.name)
      else
        var later := if xs[0].anchor.Some? then v.copies[xs[0].anchor.value := v.tree] else v.copies;
        var more := ExpandSections(xs[1..], later);
        if more.Unknown? then more else Expanded([Kept(xs[0].key, None, v.tree)] + more.tree, more.copies)
  }

  lemma {:induction false} SectionsExpandAsEntries(xs: seq<Section>, copies: map<string, Tree>, wanted: set<string>)
    requires forall x | x in xs :: SectionOk(x, wanted)
    ensures var y := ExpandSections(xs, copies); var x := ExpandAll(KeptEntries(xs), copies);
      if x.Unknown? then y == Unknown(x.name)
      else y.Expanded? && KeptEntries(y.tree) == x.tree && y.copies == x.copies &&
           (AllWritable(x.tree) ==> forall z | z in y.tree :: SectionOk(z, wanted))
    decreases |xs|
  {
    if xs != [] {
      var x := xs[0];
      assert SectionOk(x, wanted);
      if !x.Kept? {
        SectionsExpandAsEntries(xs[1..], copies, wanted);
      } else {
        var v := Expand(x.value, copies);
        if v.Expanded? {
          var later := if x.anchor.Some? then v.copies[x.anchor.value := v.tree] else v.copies;
          SectionsExpandAsEntries(xs[1..], later, wanted);
        }
      }
      var y := ExpandSections(xs, copies);
      if y.Expanded? { assert y.tree == [y.tree[0]] + y.tree[1..]; }
    }
  }

  lemma {:induction false} SectionsAreWritable(xs: seq<Section>, wanted: set<string>)
    requires forall x | x in xs :: SectionOk(x, wanted)
    ensures AllWritable(KeptEntries(xs))
  {
    if xs != [] {
      assert SectionOk(xs[0], wanted);
      SectionsAreWritable(xs[1..], wanted);
    }
  }

  /** A document with anchors and aliases reads exactly like the one with every aliased value written
      out again, whatever stands under the keys that are stepped over. */
  lemma DocumentsReadAsWrittenOut(xs: seq<Section>, wanted: set<string>, asPair: string -> Option<Pair>)
    requires forall x | x in xs :: SectionOk(x, wanted)
    ensures var r := DocumentOf(PrintDocument(xs, asPair), map[], wanted, []);
      var y := ExpandSections(xs, map[]);
      if y.Unknown? then r == Failed(UnknownAlias(y.name))
      else AllGround(KeptEntries(y.tree)) && r.Read? &&
           DocumentOf(PrintDocument(y.tree, asPair), map[], wanted, []) == Read(r.value, [], map[])
  {
    SectionsAreWritable(xs, wanted);
    AllExpansionsMeanTheSame(KeptEntries(xs), map[], map[], []);
    SectionsExpandAsEntries(xs, map[], wanted);
    DocumentRoundTrip(xs, wanted, map[], [], asPair);
    var y := ExpandSections(xs, map[]);
    if y.Expanded? { DocumentRoundTrip(y.tree, wanted, map[], [], asPair); }
  }
}
