/** The bounded size counter of executed-component traces, against a printer of compact JSON:
    string escapes as in section 7 of RFC 8259, bytes as in section 3 of RFC 3629. */
module JsonSize {

  datatype Option<+T> = None | Some(value: T)

  type CodePoint = n: nat | n < 0x110000
  type Text = seq<CodePoint>
  type Byte = n: nat | n < 256

  /** A Python value as the counter sees it.  The text of a float is what the float printer gives. */
  datatype Json =
    | Null
    | Bool(b: bool)
    | Int(n: int)
    | Float(finite: bool, text: seq<Byte>)
    | Str(s: Text)
    | Obj(fields: seq<Field>)
    | Arr(items: seq<Json>)
    | NotJson

  datatype Field = Field(key: Option<Text>, value: Json)  // no key text: the key is not a string

  datatype Fault = OverBound | TooDeep | NotFinite | Surrogate | KeyNotText | NotStrict

  const MAX_DEPTH := 32
  const MAX_JSON_BYTES := 4 * 1024 * 1024
  const MAX_STEPS := 16

  // ---------------------------------------------------------------- the printer

  predicate IsSurrogate(c: CodePoint) { 0xD800 <= c <= 0xDFFF }

  function Utf8(c: CodePoint): seq<Byte> {
    if c < 0x80 then [c]
    else if c < 0x800 then [0xC0 + c / 64, 0x80 + c % 64]
    else if c < 0x10000 then [0xE0 + c / 4096, 0x80 + c / 64 % 64, 0x80 + c % 64]
    else [0xF0 + c / 262144, 0x80 + c / 4096 % 64, 0x80 + c / 64 % 64, 0x80 + c % 64]
  }

  const QUOTE: CodePoint := 0x22
  const BACKSLASH: CodePoint := 0x5C

  /** The letter of a two-character escape. */
  function ShortEscape(c: CodePoint): Option<Byte> {
    if c == QUOTE || c == BACKSLASH then Some(c)
    else if c == 8 then Some(0x62)
    else if c == 9 then Some(0x74)
    else if c == 10 then Some(0x6E)
    else if c == 12 then Some(0x66)
    else if c == 13 then Some(0x72)
    else None
  }

  function HexDigit(d: nat): Byte
    requires d < 16
  {
    if d < 10 then 0x30 + d else 0x61 + d - 10
  }

  function PrintChar(c: CodePoint): seq<Byte> {
    var short := ShortEscape(c);
    if short.Some? then [BACKSLASH, short.value]
    else if c < 0x20 then [BACKSLASH, 0x75, 0x30, 0x30, HexDigit(c / 16), HexDigit(c % 16)]
    else Utf8(c)
  }

  function PrintChars(s: Text): seq<Byte> {
    if s == [] then [] else PrintChar(s[0]) + PrintChars(s[1..])
  }

  function PrintString(s: Text): seq<Byte> { [QUOTE] + PrintChars(s) + [QUOTE] }

  function Digits(n: nat): seq<Byte> {
    if n < 10 then [0x30 + n] else Digits(n / 10) + [0x30 + n % 10]
  }

  function PrintInt(n: int): seq<Byte> {
    if n < 0 then [0x2D] + Digits(-n) else Digits(n)
  }

  function PrintBool(b: bool): seq<Byte> {
    if b then [0x74, 0x72, 0x75, 0x65] else [0x66, 0x61, 0x6C, 0x73, 0x65]
  }

  function Print(v: Json): seq<Byte>
    decreases v, 1
  {
    match v
    case Null => [0x6E, 0x75, 0x6C, 0x6C]
    case Bool(b) => PrintBool(b)
    case Int(n) => PrintInt(n)
    case Float(_, text) => text
    case Str(s) => PrintString(s)
    case Obj(fields) => [0x7B] + PrintFields(fields) + [0x7D]
    case Arr(items) => [0x5B] + PrintItems(items) + [0x5D]
    case NotJson => []
  }

  function PrintField(f: Field): seq<Byte>
    decreases f, 2
  {
    (if f.key.Some? then PrintString(f.key.value) else []) + [0x3A] + Print(f.value)
  }

  /** The members of an object, separated by commas. */
  function PrintFields(fields: seq<Field>): seq<Byte>
    decreases fields, 0
  {
    if fields == [] then []
    else if |fields| == 1 then PrintField(fields[0])
    else PrintField(fields[0]) + [0x2C] + PrintFields(fields[1..])
  }

  function PrintItems(items: seq<Json>): seq<Byte>
    decreases items, 0
  {
    if items == [] then []
    else if |items| == 1 then Print(items[0])
    else Print(items[0]) + [0x2C] + PrintItems(items[1..])
  }

  // ---------------------------------------------------------------- which values are accepted

  predicate CleanText(s: Text) { forall i :: 0 <= i < |s| ==> !IsSurrogate(s[i]) }

  predicate Strict(v: Json)
    decreases v, 1
  {
    match v
    case Float(finite, _) => finite
    case Str(s) => CleanText(s)
    case Obj(fields) => StrictFields(fields)
    case Arr(items) => StrictItems(items)
    case NotJson => false
    case _ => true
  }

  predicate StrictFields(fields: seq<Field>)
    decreases fields, 0
  {
    fields == [] || (StrictField(fields[0]) && StrictFields(fields[1..]))
  }

  predicate StrictField(f: Field)
    decreases f, 2
  {
    f.key.Some? && CleanText(f.key.value) && Strict(f.value)
  }

  predicate StrictItems(items: seq<Json>)
    decreases items, 0
  {
    items == [] || (Strict(items[0]) && StrictItems(items[1..]))
  }

  function Max(a: nat, b: nat): nat { if a < b then b else a }

  /** How many containers deep the deepest value lies. */
  function Height(v: Json): nat
    decreases v, 1
  {
    match v
    case Obj(fields) => HeightFields(fields)
    case Arr(items) => HeightItems(items)
    case _ => 0
  }

  function HeightFields(fields: seq<Field>): nat
    decreases fields, 0
  {
    if fields == [] then 0 else Max(HeightField(fields[0]), HeightFields(fields[1..]))
  }

  function HeightField(f: Field): nat
    decreases f, 2
  {
    1 + Height(f.value)
  }

  function HeightItems(items: seq<Json>): nat
    decreases items, 0
  {
    if items == [] then 0 else Max(1 + Height(items[0]), HeightItems(items[1..]))
  }

  // ---------------------------------------------------------------- what the counter adds up

  /** The bytes added before the first fault, and that fault. */
  datatype Cost = Cost(bytes: nat, fault: Option<Fault>) {
    function Then(next: Cost): Cost {
      if fault.Some? then this else Cost(bytes + next.bytes, next.fault)
    }
  }

  function Bytes(n: nat): Cost { Cost(n, None) }

  function CharCost(c: CodePoint): Cost {
    if c == QUOTE || c == BACKSLASH || c == 8 || c == 12 || c == 10 || c == 13 || c == 9 then Bytes(2)
    else if c < 0x20 then Bytes(6)
    else if c < 0x80 then Bytes(1)
    else if c < 0x800 then Bytes(2)
    else if c < 0x10000 then if IsSurrogate(c) then Cost(0, Some(Surrogate)) else Bytes(3)
    else Bytes(4)
  }

  function CharsCost(s: Text): Cost {
    if s == [] then Bytes(0) else CharsCost(s[..|s| - 1]).Then(CharCost(s[|s| - 1]))
  }

  function StringCost(s: Text): Cost { Bytes(2).Then(CharsCost(s)) }

  function ValueCost(v: Json, depth: nat): Cost
    decreases v, 1
  {
    if depth > MAX_DEPTH then Cost(0, Some(TooDeep))
    else match v
      case Null => Bytes(4)
      case Bool(b) => Bytes(if b then 4 else 5)
      case Int(n) => Bytes(|PrintInt(n)|)
      case Float(finite, text) => if finite then Bytes(|text|) else Cost(0, Some(NotFinite))
      case Str(s) => StringCost(s)
      case Obj(fields) => Bytes(1).Then(FieldsCost(fields, 0, depth)).Then(Bytes(1))
      case Arr(items) => Bytes(1).Then(ItemsCost(items, 0, depth)).Then(Bytes(1))
      case NotJson => Cost(0, Some(NotStrict))
  }

  function FieldCost(f: Field, first: bool, depth: nat): Cost
    decreases f, 2
  {
    if f.key.None? then Cost(0, Some(KeyNotText))
    else Bytes(if first then 0 else 1).Then(StringCost(f.key.value)).Then(Bytes(1)).Then(ValueCost(f.value, depth + 1))
  }

  /** The fields that remain when `done` of them were counted. */
  function FieldsCost(fields: seq<Field>, done: nat, depth: nat): Cost
    decreases fields, 0
  {
    if fields == [] then Bytes(0)
    else FieldCost(fields[0], done == 0, depth).Then(FieldsCost(fields[1..], done + 1, depth))
  }

  function ItemsCost(items: seq<Json>, done: nat, depth: nat): Cost
    decreases items, 0
  {
    if items == [] then Bytes(0)
    else Bytes(if done == 0 then 0 else 1).Then(ValueCost(items[0], depth + 1)).Then(ItemsCost(items[1..], done + 1, depth))
  }

  // ---------------------------------------------------------------- the counter prints nothing, but counts the print

  lemma {:induction false} CharsCostIsPrint(s: Text)
    ensures CharsCost(s).fault.None? <==> CleanText(s)
    ensures CleanText(s) ==> CharsCost(s).bytes == |PrintChars(s)|
  {
    if s != [] {
      var most, last := s[..|s| - 1], s[|s| - 1];
      CharsCostIsPrint(most);
      PrintCharsAppend(most, last);
      assert most + [last] == s;
      assert CleanText(s) <==> CleanText(most) && !IsSurrogate(last);
    }
  }

  lemma {:induction false} PrintCharsAppend(s: Text, c: CodePoint)
    ensures PrintChars(s + [c]) == PrintChars(s) + PrintChar(c)
  {
    if s == [] {
      assert [c][1..] == [];
    } else {
      assert (s + [c])[1..] == s[1..] + [c];
      PrintCharsAppend(s[1..], c);
    }
  }

  /** The counter accepts exactly the strict values that are not nested too deep, and for those it adds
      up exactly the bytes of the compact print. */
  lemma {:induction false} ValueCostIsPrint(v: Json, depth: nat)
    ensures ValueCost(v, depth).fault.None? <==> Strict(v) && depth + Height(v) <= MAX_DEPTH
    ensures ValueCost(v, depth).fault.None? ==> ValueCost(v, depth).bytes == |Print(v)|
    decreases v, 1
  {
    if depth <= MAX_DEPTH {
      match v
      case Obj(fields) =>
        FieldsCostIsPrint(fields, 0, depth);
        ObjectFromFields(fields, depth);
      case Arr(items) =>
        ItemsCostIsPrint(items, 0, depth);
        ArrayFromItems(items, depth);
      case _ => ScalarCostIsPrint(v, depth);
    }
  }

  lemma ScalarCostIsPrint(v: Json, depth: nat)
    requires depth <= MAX_DEPTH && !v.Obj? && !v.Arr?
    ensures ValueCost(v, depth).fault.None? <==> Strict(v)
    ensures Height(v) == 0
    ensures ValueCost(v, depth).fault.None? ==> ValueCost(v, depth).bytes == |Print(v)|
  {
    if v.Str? {
      CharsCostIsPrint(v.s);
    }
  }

  /** A container from its members: the two brackets are all it adds. */
  lemma ObjectFromFields(fields: seq<Field>, depth: nat)
    requires depth <= MAX_DEPTH
    ensures ValueCost(Obj(fields), depth) == Bytes(1).Then(FieldsCost(fields, 0, depth)).Then(Bytes(1))
    ensures |Print(Obj(fields))| == |PrintFields(fields)| + 2
    ensures Height(Obj(fields)) == HeightFields(fields) && Strict(Obj(fields)) == StrictFields(fields)
  {
  }

  lemma ArrayFromItems(items: seq<Json>, depth: nat)
    requires depth <= MAX_DEPTH
    ensures ValueCost(Arr(items), depth) == Bytes(1).Then(ItemsCost(items, 0, depth)).Then(Bytes(1))
    ensures |Print(Arr(items))| == |PrintItems(items)| + 2
    ensures Height(Arr(items)) == HeightItems(items) && Strict(Arr(items)) == StrictItems(items)
  {
  }

  lemma {:induction false} FieldCostIsPrint(f: Field, first: bool, depth: nat)
    requires depth <= MAX_DEPTH
    ensures FieldCost(f, first, depth).fault.None? <==> StrictField(f) && depth + HeightField(f) <= MAX_DEPTH
    ensures FieldCost(f, first, depth).fault.None? ==>
              FieldCost(f, first, depth).bytes == |PrintField(f)| + (if first then 0 else 1)
    decreases f, 2
  {
    if f.key.Some? {
      ValueCostIsPrint(f.value, depth + 1);
      CharsCostIsPrint(f.key.value);
    }
  }

  lemma {:induction false} FieldsCostIsPrint(fields: seq<Field>, done: nat, depth: nat)
    requires depth <= MAX_DEPTH
    ensures FieldsCost(fields, done, depth).fault.None? <==> StrictFields(fields) && depth + HeightFields(fields) <= MAX_DEPTH
    ensures FieldsCost(fields, done, depth).fault.None? ==>
              FieldsCost(fields, done, depth).bytes == |PrintFields(fields)| + (if done > 0 && fields != [] then 1 else 0)
    decreases fields, 0
  {
    if fields != [] {
      FieldCostIsPrint(fields[0], done == 0, depth);
      FieldsCostIsPrint(fields[1..], done + 1, depth);
    }
  }

  lemma {:induction false} ItemsCostIsPrint(items: seq<Json>, done: nat, depth: nat)
    requires depth <= MAX_DEPTH
    ensures ItemsCost(items, done, depth).fault.None? <==> StrictItems(items) && depth + HeightItems(items) <= MAX_DEPTH
    ensures ItemsCost(items, done, depth).fault.None? ==>
              ItemsCost(items, done, depth).bytes == |PrintItems(items)| + (if done > 0 && items != [] then 1 else 0)
    decreases items, 0
  {
    if items != [] {
      ValueCostIsPrint(items[0], depth + 1);
      ItemsCostIsPrint(items[1..], done + 1, depth);
    }
  }

  // ---------------------------------------------------------------- the counter itself

  /** What a counter with `used` bytes on it does with a cost: it stops at the first addition that
      passes the limit, or at the first fault. */
  function Stop(used: nat, cost: Cost, limit: int): Option<Fault> {
    if used + cost.bytes > limit then Some(OverBound) else cost.fault
  }

  lemma OneMoreChar(s: Text, i: nat)
    requires i < |s|
    ensures CharsCost(s[..i + 1]) == CharsCost(s[..i]).Then(CharCost(s[i]))
  {
    assert s[..i + 1][..i] == s[..i];
  }

  class JsonByteCounter {
    const limit: int
    var total: nat

    constructor (limit: int)
      ensures this.limit == limit && total == 0
    {
      this.limit := limit;
      total := 0;
    }

    /** `add`: raises as soon as the limit is passed. */
    method Add(count: nat) returns (stop: Option<Fault>)
      modifies this
      ensures total == old(total) + count
      ensures stop == if total > limit then Some(OverBound) else None
    {
      total := total + count;
      return if total > limit then Some(OverBound) else None;
    }

    /** The body of the loop over the characters of a string. */
    method AddChar(c: CodePoint) returns (stop: Option<Fault>)
      requires total <= limit
      modifies this
      ensures stop == Stop(old(total), CharCost(c), limit)
      ensures stop.None? ==> total == old(total) + CharCost(c).bytes
    {
      if c == QUOTE || c == BACKSLASH || c == 8 || c == 12 || c == 10 || c == 13 || c == 9 {
        stop := Add(2);
      } else if c < 0x20 {
        stop := Add(6);
      } else if c < 0x80 {
        stop := Add(1);
      } else if c < 0x800 {
        stop := Add(2);
      } else if c < 0x10000 {
        if IsSurrogate(c) {
          return Some(Surrogate);
        }
        stop := Add(3);
      } else {
        stop := Add(4);
      }
    }

    /** `_add_json_string_bytes`. */
    method AddString(s: Text) returns (stop: Option<Fault>)
      requires total <= limit
      modifies this
      ensures stop == Stop(old(total), StringCost(s), limit)
      ensures stop.None? ==> total == old(total) + StringCost(s).bytes
    {
      stop := Add(2);
      if stop.Some? { return; }
      var i := 0;
      while i < |s|
        invariant i <= |s| && total <= limit
        invariant CharsCost(s[..i]).fault.None?
        invariant total == old(total) + 2 + CharsCost(s[..i]).bytes
      {
        OneMoreChar(s, i);
        CharsCostGrows(s, i + 1);
        stop := AddChar(s[i]);
        if stop.Some? { return; }
        i := i + 1;
      }
      assert s[..|s|] == s;
      return None;
    }

    /** `add_value`. */
    method AddValue(v: Json, depth: nat) returns (stop: Option<Fault>)
      requires total <= limit
      modifies this
      ensures stop == Stop(old(total), ValueCost(v, depth), limit)
      ensures stop.None? ==> total == old(total) + ValueCost(v, depth).bytes
      decreases v, 1
    {
      if depth > MAX_DEPTH { return Some(TooDeep); }
      match v {
        case Null => stop := Add(4);
        case Bool(b) => stop := Add(if b then 4 else 5);
        case Int(n) => stop := Add(|PrintInt(n)|);
        case Float(finite, text) =>
          if !finite { return Some(NotFinite); }
          stop := Add(|text|);
        case Str(s) => stop := AddString(s);
        case Obj(fields) => stop := AddObject(fields, depth);
        case Arr(items) => stop := AddArray(items, depth);
        case NotJson => return Some(NotStrict);
      }
    }

    method AddObject(fields: seq<Field>, depth: nat) returns (stop: Option<Fault>)
      requires total <= limit
      modifies this
      ensures stop == Stop(old(total), Bytes(1).Then(FieldsCost(fields, 0, depth)).Then(Bytes(1)), limit)
      ensures stop.None? ==> total == old(total) + 2 + FieldsCost(fields, 0, depth).bytes
      decreases fields, 1
    {
      stop := Add(1);
      if stop.Some? { return; }
      stop := AddFields(fields, depth);
      if stop.Some? { return; }
      stop := Add(1);
    }

    method AddArray(items: seq<Json>, depth: nat) returns (stop: Option<Fault>)
      requires total <= limit
      modifies this
      ensures stop == Stop(old(total), Bytes(1).Then(ItemsCost(items, 0, depth)).Then(Bytes(1)), limit)
      ensures stop.None? ==> total == old(total) + 2 + ItemsCost(items, 0, depth).bytes
      decreases items, 1
    {
      stop := Add(1);
      if stop.Some? { return; }
      stop := AddItems(items, depth);
      if stop.Some? { return; }
      stop := Add(1);
    }

    /** The loop over the items of a mapping. */
    method AddFields(fields: seq<Field>, depth: nat) returns (stop: Option<Fault>)
      requires total <= limit
      modifies this
      ensures stop == Stop(old(total), FieldsCost(fields, 0, depth), limit)
      ensures stop.None? ==> total == old(total) + FieldsCost(fields, 0, depth).bytes
      decreases fields, 0
    {
      var i := 0;
      while i < |fields|
        invariant i <= |fields| && total <= limit
        invariant Stop(old(total), FieldsCost(fields, 0, depth), limit) == Stop(total, FieldsCost(fields[i..], i, depth), limit)
        invariant FieldsCost(fields[i..], i, depth).fault.None? ==>
                    old(total) + FieldsCost(fields, 0, depth).bytes == total + FieldsCost(fields[i..], i, depth).bytes
      {
        assert fields[i..][0] == fields[i] && fields[i..][1..] == fields[i + 1..];
        stop := AddField(fields[i], i == 0, depth);
        if stop.Some? { return; }
        i := i + 1;
      }
      return None;
    }

    /** The body of that loop. */
    method AddField(f: Field, first: bool, depth: nat) returns (stop: Option<Fault>)
      requires total <= limit
      modifies this
      ensures stop == Stop(old(total), FieldCost(f, first, depth), limit)
      ensures stop.None? ==> total == old(total) + FieldCost(f, first, depth).bytes
      decreases f, 2
    {
      if f.key.None? { return Some(KeyNotText); }
      if !first {
        stop := Add(1);
        if stop.Some? { return; }
      }
      stop := AddString(f.key.value);
      if stop.Some? { return; }
      stop := Add(1);
      if stop.Some? { return; }
      stop := AddValue(f.value, depth + 1);
    }

    /** The loop over the items of a list or tuple. */
    method AddItems(items: seq<Json>, depth: nat) returns (stop: Option<Fault>)
      requires total <= limit
      modifies this
      ensures stop == Stop(old(total), ItemsCost(items, 0, depth), limit)
      ensures stop.None? ==> total == old(total) + ItemsCost(items, 0, depth).bytes
      decreases items, 0
    {
      var i := 0;
      while i < |items|
        invariant i <= |items| && total <= limit
        invariant Stop(old(total), ItemsCost(items, 0, depth), limit) == Stop(total, ItemsCost(items[i..], i, depth), limit)
        invariant ItemsCost(items[i..], i, depth).fault.None? ==>
                    old(total) + ItemsCost(items, 0, depth).bytes == total + ItemsCost(items[i..], i, depth).bytes
      {
        assert items[i..][0] == items[i] && items[i..][1..] == items[i + 1..];
        if i > 0 {
          stop := Add(1);
          if stop.Some? { return; }
        }
        stop := AddValue(items[i], depth + 1);
        if stop.Some? { return; }
        i := i + 1;
      }
      return None;
    }
  }

  /** Counting a longer prefix never costs less, and a fault stays. */
  lemma {:induction false} CharsCostGrows(s: Text, i: nat)
    requires i <= |s|
    ensures CharsCost(s[..i]).bytes <= CharsCost(s).bytes
    ensures CharsCost(s[..i]).fault.Some? ==> CharsCost(s) == CharsCost(s[..i])
  {
    if i < |s| {
      var most := s[..|s| - 1];
      CharsCostGrows(most, i);
      assert most[..i] == s[..i];
    } else {
      assert s[..i] == s;
    }
  }

  /** `_bounded_canonical_json_size`: succeeds exactly on the strict values of bounded depth whose compact
      print has at most `maxBytes` bytes, and then returns that number of bytes. */
  method BoundedCanonicalJsonSize(v: Json, maxBytes: nat) returns (size: nat, stop: Option<Fault>)
    ensures stop.None? <==> Strict(v) && Height(v) <= MAX_DEPTH && |Print(v)| <= maxBytes
    ensures stop.None? ==> size == |Print(v)|
    ensures Strict(v) && Height(v) <= MAX_DEPTH && |Print(v)| > maxBytes ==> stop == Some(OverBound)
  {
    ValueCostIsPrint(v, 0);
    var counter := new JsonByteCounter(maxBytes);
    stop := counter.AddValue(v, 0);
    size := counter.total;
  }

  // ---------------------------------------------------------------- steps and traces

  datatype Step = Step(traceIndex: nat, componentId: Text, inputNames: seq<Text>, outputNames: seq<Text>,
                       inputs: seq<Field>, outputs: seq<Field>)

  function Name(s: string): Text
    requires forall i :: 0 <= i < |s| ==> s[i] < 128 as char
  {
    seq(|s|, i requires 0 <= i < |s| => s[i] as CodePoint)
  }

  function TextList(names: seq<Text>): Json {
    Arr(seq(|names|, i requires 0 <= i < |names| => Str(names[i])))
  }

  /** The mapping whose size a step records. */
  function StepJson(step: Step): Json {
    Obj([
      Field(Some(Name("trace_index")), Int(step.traceIndex)),
      Field(Some(Name("component_id")), Str(step.componentId)),
      Field(Some(Name("input_field_names")), TextList(step.inputNames)),
      Field(Some(Name("output_field_names")), TextList(step.outputNames)),
      Field(Some(Name("inputs")), Obj(step.inputs)),
      Field(Some(Name("outputs")), Obj(step.outputs))])
  }

  function TraceJson(steps: seq<Step>): Json {
    Arr(seq(|steps|, i requires 0 <= i < |steps| => StepJson(steps[i])))
  }

  /** The sizes of the first `n` steps with their separators. */
  function SeparatedSum(sizes: seq<nat>): nat {
    if sizes == [] then 0
    else if |sizes| == 1 then sizes[0]
    else SeparatedSum(sizes[..|sizes| - 1]) + 1 + sizes[|sizes| - 1]
  }

  lemma {:induction false} SeparatedSumIsPrint(items: seq<Json>, sizes: seq<nat>)
    requires |items| == |sizes| && forall i :: 0 <= i < |items| ==> sizes[i] == |Print(items[i])|
    ensures SeparatedSum(sizes) == |PrintItems(items)|
  {
    if |items| > 1 {
      var n := |items| - 1;
      SeparatedSumIsPrint(items[..n], sizes[..n]);
      PrintItemsAppend(items[..n], items[n]);
      assert items[..n] + [items[n]] == items;
    }
  }

  lemma {:induction false} PrintItemsAppend(items: seq<Json>, last: Json)
    requires items != []
    ensures PrintItems(items + [last]) == PrintItems(items) + [0x2C] + Print(last)
  {
    if |items| == 1 {
      assert (items + [last])[1..] == [last];
    } else {
      assert (items + [last])[1..] == items[1..] + [last];
      PrintItemsAppend(items[1..], last);
    }
  }

  /** `_bounded_trace_json_size`: adds up step sizes and separators, with the same early exit. */
  method BoundedTraceJsonSize(sizes: seq<nat>, maxBytes: nat) returns (size: nat, stop: Option<Fault>)
    ensures stop == if 2 + SeparatedSum(sizes) > maxBytes then Some(OverBound) else None
    ensures stop.None? ==> size == 2 + SeparatedSum(sizes)
  {
    var counter := new JsonByteCounter(maxBytes);
    stop := counter.Add(2);
    if stop.Some? { return 0, stop; }
    var i := 0;
    while i < |sizes|
      invariant i <= |sizes| && counter.limit == maxBytes
      invariant counter.total == 2 + SeparatedSum(sizes[..i]) <= maxBytes
    {
      assert sizes[..i + 1][..i] == sizes[..i];
      SeparatedSumGrows(sizes, i + 1);
      if i > 0 {
        stop := counter.Add(1);
        if stop.Some? { return 0, stop; }
      }
      stop := counter.Add(sizes[i]);
      if stop.Some? { return 0, stop; }
      i := i + 1;
    }
    assert sizes[..|sizes|] == sizes;
    return counter.total, None;
  }

  lemma {:induction false} SeparatedSumGrows(sizes: seq<nat>, i: nat)
    requires i <= |sizes|
    ensures SeparatedSum(sizes[..i]) <= SeparatedSum(sizes)
  {
    if i < |sizes| {
      SeparatedSumGrows(sizes[..|sizes| - 1], i);
      assert sizes[..|sizes| - 1][..i] == sizes[..i];
    } else {
      assert sizes[..i] == sizes;
    }
  }

  lemma TraceSize(steps: seq<Step>, sizes: seq<nat>)
    requires |sizes| == |steps| && forall i :: 0 <= i < |steps| ==> sizes[i] == |Print(StepJson(steps[i]))|
    ensures |Print(TraceJson(steps))| == 2 + SeparatedSum(sizes)
  {
    ListSize(TraceJson(steps).items, sizes);
  }

  lemma ListSize(items: seq<Json>, sizes: seq<nat>)
    requires |items| == |sizes| && forall i :: 0 <= i < |items| ==> sizes[i] == |Print(items[i])|
    ensures |Print(Arr(items))| == 2 + SeparatedSum(sizes)
  {
    SeparatedSumIsPrint(items, sizes);
  }

  /** `validate_trace` on steps that record their own exact sizes: it accepts exactly the short traces with
      contiguous indexes whose whole list, brackets and commas included, prints within the bound. */
  method ValidateTrace(steps: seq<Step>, sizes: seq<nat>) returns (ok: bool)
    requires |sizes| == |steps| && forall i :: 0 <= i < |steps| ==> sizes[i] == |Print(StepJson(steps[i]))|
    ensures ok <==> |steps| <= MAX_STEPS
                    && (forall i :: 0 <= i < |steps| ==> steps[i].traceIndex == i)
                    && |Print(TraceJson(steps))| <= MAX_JSON_BYTES
  {
    TraceSize(steps, sizes);
    if |steps| > MAX_STEPS { return false; }
    var i := 0;
    while i < |steps|
      invariant i <= |steps|
      invariant forall k :: 0 <= k < i ==> steps[k].traceIndex == k
    {
      if steps[i].traceIndex != i { return false; }
      i := i + 1;
    }
    var _, stop := BoundedTraceJsonSize(sizes, MAX_JSON_BYTES);
    return stop.None?;
  }
}
