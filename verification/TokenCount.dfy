/**
 Counting the tokens of one message (BaseClient.getTokenCountForMessage). The tokenizer and
 number printing belong to libraries and are parameters.
 */
module TokenCount {
  import opened Options
  import EditedContent

  datatype ToolCall = ToolCall(name: Option<string>, args: Option<string>, output: Option<string>)

  /** A property value. `Opaque` is null, undefined, or an object that is not an array. */
  datatype Value = Items(items: seq<Item>) | Str(s: string) | Num(n: real) | Bool(b: bool) | Opaque

  /** An array entry: one without a type, a tool call, or a typed part with the value of `item[item.type]`. */
  datatype Item = Untyped | Tool(call: Option<ToolCall>) | Typed(kind: string, nested: Value)

  /** Kinds that are never model input. */
  const UNCOUNTED := {"think", "error", "activity_label", "image_url"}

  predicate Uncounted(item: Item) {
    item.Untyped? || item == Tool(None) || (item.Typed? && (item.kind == "" || item.kind in UNCOUNTED))
  }

  /** The library functions the count depends on. */
  datatype Library = Library(tokens: string -> nat, show: real -> string)

  function Spell(b: bool): string {
    if b then "true" else "false"
  }

  function Falsy(v: Value): bool {
    match v
    case Str(s) => s == ""
    case Num(n) => n == 0.0
    case Bool(b) => !b
    case Items(_) => false
    case Opaque => false
  }

  function Optional(lib: Library, s: Option<string>): nat {
    if s.Some? && s.value != "" then lib.tokens(s.value) else 0
  }

  function ItemTokens(lib: Library, item: Item): nat {
    match item
    case Untyped => 0
    case Tool(None) => 0
    case Tool(Some(call)) => Optional(lib, call.name) + Optional(lib, call.args) + Optional(lib, call.output)
    case Typed(kind, nested) =>
      if kind == "" || kind in UNCOUNTED || Falsy(nested) then 0 else ValueTokens(lib, nested)
  }

  function ItemsTokens(lib: Library, items: seq<Item>): nat {
    if items == [] then 0 else ItemTokens(lib, items[0]) + ItemsTokens(lib, items[1..])
  }

  function ValueTokens(lib: Library, v: Value): nat {
    match v
    case Items(items) => ItemsTokens(lib, items)
    case Str(s) => lib.tokens(s)
    case Num(n) => lib.tokens(lib.show(n))
    case Bool(b) => lib.tokens(Spell(b))
    case Opaque => 0
  }

  datatype Entry = Entry(key: string, value: Value)

  function EntriesTokens(lib: Library, entries: seq<Entry>, perName: int): int {
    if entries == [] then 0
    else ValueTokens(lib, entries[0].value) + (if entries[0].key == "name" then perName else 0)
         + EntriesTokens(lib, entries[1..], perName)
  }

  function MessageTokens(lib: Library, entries: seq<Entry>, model: string): int {
    if model == "gpt-3.5-turbo-0301" then 4 + EntriesTokens(lib, entries, -1) else 3 + EntriesTokens(lib, entries, 1)
  }

  /** One call of the counter: `numTokens` is the variable the nested calls add to. */
  class Counter {
    const lib: Library
    var numTokens: int

    constructor (lib: Library, initial: int)
      ensures this.lib == lib && numTokens == initial
    {
      this.lib := lib;
      numTokens := initial;
    }

    method AddOptional(s: Option<string>)
      modifies this
      ensures numTokens == old(numTokens) + Optional(lib, s)
    {
      if s.Some? && s.value != "" {
        numTokens := numTokens + lib.tokens(s.value);
      }
    }

    method ProcessValue(value: Value)
      modifies this
      ensures numTokens == old(numTokens) + ValueTokens(lib, value)
      decreases value
    {
      match value {
        case Items(items) =>
          for i := 0 to |items|
            invariant numTokens + ItemsTokens(lib, items[i..]) == old(numTokens) + ItemsTokens(lib, items)
          {
            assert items[i..][1..] == items[i + 1..];
            var item := items[i];
            match item {
              case Untyped =>
              case Tool(None) =>
              case Tool(Some(call)) =>
                AddOptional(call.name);
                AddOptional(call.args);
                AddOptional(call.output);
              case Typed(kind, nested) =>
                if kind == "" || kind in UNCOUNTED {
                  continue;
                }
                if Falsy(nested) {
                  continue;
                }
                ProcessValue(nested);
            }
          }
        case Str(s) => numTokens := numTokens + lib.tokens(s);
        case Num(n) => numTokens := numTokens + lib.tokens(lib.show(n));
        case Bool(b) => numTokens := numTokens + lib.tokens(Spell(b));
        case Opaque =>
      }
    }
  }

  method GetTokenCountForMessage(lib: Library, entries: seq<Entry>, model: string) returns (count: int)
    ensures count == MessageTokens(lib, entries, model)
  {
    var tokensPerMessage, tokensPerName := 3, 1;
    if model == "gpt-3.5-turbo-0301" {
      tokensPerMessage, tokensPerName := 4, -1;
    }
    var counter := new Counter(lib, tokensPerMessage);
    for i := 0 to |entries|
      invariant counter.lib == lib
      invariant counter.numTokens + EntriesTokens(lib, entries[i..], tokensPerName)
             == tokensPerMessage + EntriesTokens(lib, entries, tokensPerName)
    {
      assert entries[i..][1..] == entries[i + 1..];
      counter.ProcessValue(entries[i].value);
      if entries[i].key == "name" {
        counter.numTokens := counter.numTokens + tokensPerName;
      }
    }
    count := counter.numTokens;
  }

  // ---- what the count depends on

  lemma {:induction false} ItemsAdd(lib: Library, a: seq<Item>, b: seq<Item>)
    ensures ItemsTokens(lib, a + b) == ItemsTokens(lib, a) + ItemsTokens(lib, b)
  {
    if a == [] {
      assert a + b == b;
    } else {
      assert (a + b)[1..] == a[1..] + b;
      ItemsAdd(lib, a[1..], b);
    }
  }

  /** What a count can depend on: the entries that are not dropped, in order, and so on inside each. */
  function Counted(items: seq<Item>): seq<Item> {
    if items == [] then []
    else (if Uncounted(items[0]) then [] else [CountedItem(items[0])]) + Counted(items[1..])
  }

  function CountedItem(item: Item): Item {
    match item
    case Typed(kind, nested) => Typed(kind, CountedValue(nested))
    case _ => item
  }

  function CountedValue(v: Value): Value {
    match v
    case Items(items) => Items(Counted(items))
    case _ => v
  }

  lemma {:induction false} OnlyCountedMatters(lib: Library, items: seq<Item>)
    ensures ItemsTokens(lib, Counted(items)) == ItemsTokens(lib, items)
    decreases items
  {
    if items == [] {
    } else {
      var kept := if Uncounted(items[0]) then [] else [CountedItem(items[0])];
      OnlyCountedMatters(lib, items[1..]);
      ItemsAdd(lib, kept, Counted(items[1..]));
      if !Uncounted(items[0]) {
        if items[0].Typed? && items[0].nested.Items? {
          OnlyCountedMatters(lib, items[0].nested.items);
        }
        CountedItemTokens(lib, items[0]);
        assert kept[1..] == [];
      }
    }
  }

  lemma CountedItemTokens(lib: Library, item: Item)
    requires item.Typed? && item.nested.Items? ==>
               ItemsTokens(lib, Counted(item.nested.items)) == ItemsTokens(lib, item.nested.items)
    ensures ItemTokens(lib, CountedItem(item)) == ItemTokens(lib, item)
  {
    if item.Typed? && item.nested.Items? {
      assert CountedValue(item.nested) == Items(Counted(item.nested.items));
      assert ValueTokens(lib, CountedValue(item.nested)) == ItemsTokens(lib, Counted(item.nested.items));
    }
  }

  /** Two values that differ only in parts that are never model input, however deeply nested, count the same. */
  lemma SameCountedSameTokens(lib: Library, v: Value, w: Value)
    requires CountedValue(v) == CountedValue(w)
    ensures ValueTokens(lib, v) == ValueTokens(lib, w)
  {
    if v.Items? {
      OnlyCountedMatters(lib, v.items);
      OnlyCountedMatters(lib, w.items);
    }
  }

  lemma {:induction false} CountedAdd(a: seq<Item>, b: seq<Item>)
    ensures Counted(a + b) == Counted(a) + Counted(b)
  {
    if a == [] {
      assert a + b == b;
    } else {
      assert (a + b)[1..] == a[1..] + b;
      CountedAdd(a[1..], b);
    }
  }

  /** Inserting a part that is never model input leaves what counts, and so the count, wherever it goes. */
  lemma InsertingUncounted(lib: Library, before: seq<Item>, item: Item, after: seq<Item>)
    requires Uncounted(item)
    ensures CountedValue(Items(before + [item] + after)) == CountedValue(Items(before + after))
    ensures ItemsTokens(lib, before + [item] + after) == ItemsTokens(lib, before + after)
  {
    assert [item][1..] == [] && Counted([item]) == [];
    CountedAdd(before + [item], after);
    CountedAdd(before, [item]);
    CountedAdd(before, after);
    SameCountedSameTokens(lib, Items(before + [item] + after), Items(before + after));
  }

  /** One level further in: what leaves the value of a part alone leaves the content around it alone. */
  lemma InsertingDeeper(lib: Library, before: seq<Item>, kind: string, v: Value, w: Value, after: seq<Item>)
    requires CountedValue(v) == CountedValue(w)
    ensures CountedValue(Items(before + [Typed(kind, v)] + after)) ==
              CountedValue(Items(before + [Typed(kind, w)] + after))
    ensures ItemsTokens(lib, before + [Typed(kind, v)] + after) == ItemsTokens(lib, before + [Typed(kind, w)] + after)
  {
    assert [Typed(kind, v)][1..] == [] && [Typed(kind, w)][1..] == [];
    assert Counted([Typed(kind, v)]) == Counted([Typed(kind, w)]);
    CountedAdd(before + [Typed(kind, v)], after);
    CountedAdd(before, [Typed(kind, v)]);
    CountedAdd(before + [Typed(kind, w)], after);
    CountedAdd(before, [Typed(kind, w)]);
    SameCountedSameTokens(lib, Items(before + [Typed(kind, v)] + after), Items(before + [Typed(kind, w)] + after));
  }

  /** Nested arrays count like their contents put in place. */
  lemma FlatteningKeepsTokens(lib: Library, before: seq<Item>, kind: string, nested: seq<Item>, after: seq<Item>)
    requires kind != "" && kind !in UNCOUNTED
    ensures ItemsTokens(lib, before + [Typed(kind, Items(nested))] + after) == ItemsTokens(lib, before + nested + after)
  {
    var item := Typed(kind, Items(nested));
    ItemsAdd(lib, before + [item], after);
    ItemsAdd(lib, before, [item]);
    ItemsAdd(lib, before + nested, after);
    ItemsAdd(lib, before, nested);
    assert ItemsTokens(lib, [item]) == ItemTokens(lib, item) == ValueTokens(lib, item.nested) ==
             ItemsTokens(lib, nested);
  }

  // ---- the count of edited content

  /** How the counter sees a content part; `others` gives the view of the kinds the merge passes through. */
  function View(part: EditedContent.Part, others: EditedContent.Part -> Item): Item {
    match part
    case Hole => Untyped
    case Text(text, _, _) => Typed("text", Str(OrEmpty(text)))
    case Think(think, _, _) => Typed("think", Str(OrEmpty(think)))
    case ActivityLabel(_, _, _, _) => Typed("activity_label", Opaque)
    case Other(_, _) => others(part)
  }

  function ContentTokens(lib: Library, parts: EditedContent.Content, others: EditedContent.Part -> Item): nat {
    if parts == [] then 0
    else ItemTokens(lib, View(parts[0], others)) + ContentTokens(lib, parts[1..], others)
  }

  lemma {:induction false} ContentAdd(lib: Library, a: EditedContent.Content, b: EditedContent.Content,
                                      others: EditedContent.Part -> Item)
    ensures ContentTokens(lib, a + b, others) == ContentTokens(lib, a, others) + ContentTokens(lib, b, others)
  {
    if a == [] {
      assert a + b == b;
    } else {
      assert (a + b)[1..] == a[1..] + b;
      ContentAdd(lib, a[1..], b, others);
    }
  }

  lemma {:induction false} ShiftingBoundsKeepsTokens(lib: Library, parts: EditedContent.Content, d: int,
                                                     others: EditedContent.Part -> Item)
    ensures ContentTokens(lib, EditedContent.ShiftAll(parts, d), others) == ContentTokens(lib, parts, others)
  {
    if parts == [] {
    } else {
      assert EditedContent.ShiftAll(parts, d)[1..] == EditedContent.ShiftAll(parts[1..], d);
      ShiftingBoundsKeepsTokens(lib, parts[1..], d, others);
    }
  }

  /** What tokenizing two texts joined costs over tokenizing them apart. */
  function SeamTokens(lib: Library, s: string, t: string): int {
    Optional(lib, Some(s + t)) - Optional(lib, Some(s)) - Optional(lib, Some(t))
  }

  lemma OnePart(lib: Library, part: EditedContent.Part, others: EditedContent.Part -> Item)
    ensures ContentTokens(lib, [part], others) == ItemTokens(lib, View(part, others))
  {
    assert [part][1..] == [];
  }

  lemma FusedTokens(lib: Library, e: EditedContent.Part, n: EditedContent.Part, others: EditedContent.Part -> Item)
    requires EditedContent.SameKind(e, n)
    ensures ItemTokens(lib, View(EditedContent.Fuse(e, n), others))
         == ItemTokens(lib, View(e, others)) + ItemTokens(lib, View(n, others))
            + (if e.Text? then SeamTokens(lib, OrEmpty(e.text), OrEmpty(n.text)) else 0)
  {
  }

  /**
   Merging edited content counts as the two inputs together; the only difference it can make is
   the tokenizer's own, at the one seam where two texts are joined.
   */
  lemma MergeTokens(lib: Library, existing: EditedContent.Content, completion: EditedContent.Content,
                    edited: EditedContent.EditedType, others: EditedContent.Part -> Item)
    ensures ContentTokens(lib, EditedContent.Merge(existing, completion, edited), others)
         == ContentTokens(lib, existing, others) + ContentTokens(lib, completion, others)
            + (if EditedContent.Fuses(existing, completion, edited) && edited.EditText?
               then SeamTokens(lib, OrEmpty(existing[|existing| - 1].text), OrEmpty(completion[0].text))
               else 0)
  {
    var off := EditedContent.Offset(existing, completion, edited);
    EditedContent.MergeAtSeam(existing, completion, edited);
    if EditedContent.Fuses(existing, completion, edited) {
      var e, n, rest := existing[off], completion[0], completion[1..];
      ContentAdd(lib, existing[..off], [EditedContent.Fuse(e, n)] + EditedContent.ShiftAll(rest, off), others);
      ContentAdd(lib, [EditedContent.Fuse(e, n)], EditedContent.ShiftAll(rest, off), others);
      ContentAdd(lib, existing[..off], [e], others);
      ContentAdd(lib, [n], rest, others);
      ShiftingBoundsKeepsTokens(lib, rest, off, others);
      FusedTokens(lib, e, n, others);
      OnePart(lib, EditedContent.Fuse(e, n), others);
      OnePart(lib, e, others);
      OnePart(lib, n, others);
    } else {
      ContentAdd(lib, existing, EditedContent.ShiftAll(completion, off), others);
      ShiftingBoundsKeepsTokens(lib, completion, off, others);
    }
  }
}
