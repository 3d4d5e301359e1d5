/** Failure text on its way into a lease and back: what the lease store rejects is coerced away, and the
    original travels beside it under a reserved key. */
module LeaseText {

  /** A Python code point; unpaired surrogates included. */
  type CodePoint = c: nat | c < 0x110000

  type Text = seq<CodePoint>

  datatype Option<+T> = None | Some(value: T)

  // ---------------------------------------------------------------- the lossy shape

  const LIMIT := 1024

  const BACKSLASH: CodePoint := 0x5C

  predicate Surrogate(c: CodePoint) { 0xD800 <= c <= 0xDFFF }

  /** White space for `str.strip`. */
  predicate Space(c: CodePoint) {
    || 0x09 <= c <= 0x0D || 0x1C <= c <= 0x20 || c == 0x85 || c == 0xA0 || c == 0x1680 || 0x2000 <= c <= 0x200A
    || c == 0x2028 || c == 0x2029 || c == 0x202F || c == 0x205F || c == 0x3000
  }

  predicate Blank(t: Text) {
    forall i :: 0 <= i < |t| ==> Space(t[i])
  }

  function Ascii(s: string): Text
    requires forall i :: 0 <= i < |s| ==> s[i] < 128 as char
  {
    seq(|s|, i requires 0 <= i < |s| => s[i] as int)
  }

  /** The text without NUL and surrogates. */
  function Clean(t: Text): (r: Text)
    ensures |r| <= |t|
    ensures forall i :: 0 <= i < |r| ==> r[i] != 0 && !Surrogate(r[i])
    ensures (forall i :: 0 <= i < |t| ==> t[i] != 0 && !Surrogate(t[i])) ==> r == t
  {
    if t == [] then []
    else if t[0] == 0 || Surrogate(t[0]) then Clean(t[1..])
    else
      assert t == [t[0]] + t[1..];
      [t[0]] + Clean(t[1..])
  }

  datatype Field = Code | Message

  function Name(field: Field): string {
    if field.Code? then "code" else "message"
  }

  function Unprintable(field: Field): Text {
    Ascii("<unprintable ") + Ascii(Name(field)) + Ascii(">")
  }

  function Truncate(t: Text): Text {
    if |t| > LIMIT then t[..LIMIT - 3] + Ascii("...") else t
  }

  /** `_lease_text_shape`. */
  function Shape(t: Text, field: Field): Text {
    var coerced := Truncate(Clean(t));
    if Blank(coerced) then Unprintable(field) else coerced
  }

  /** What the lease store accepts. */
  predicate Accepted(t: Text) {
    !Blank(t) && |t| <= LIMIT && forall i :: 0 <= i < |t| ==> t[i] != 0 && !Surrogate(t[i])
  }

  /** Coerced text is always accepted, and accepted text is left as it is. */
  lemma ShapeIsAccepted(t: Text, field: Field)
    ensures Accepted(Shape(t, field))
    ensures Accepted(t) ==> Shape(t, field) == t
  {
    UnprintableIsAccepted(field);
    TruncateFacts(Clean(t));
  }

  lemma UnprintableIsAccepted(field: Field)
    ensures Accepted(Unprintable(field))
  {
    assert Unprintable(field)[0] == 0x3C;
  }

  lemma TruncateFacts(t: Text)
    requires forall i :: 0 <= i < |t| ==> t[i] != 0 && !Surrogate(t[i])
    ensures !Blank(Truncate(t)) ==> Accepted(Truncate(t))
    ensures |t| <= LIMIT ==> Truncate(t) == t
  {
  }

  /** What cleaning keeps, character by character. */
  lemma {:induction false} CleanKeeps(a: Text, c: CodePoint)
    ensures Clean(a + [c]) == Clean(a) + (if c == 0 || Surrogate(c) then [] else [c])
  {
    if a == [] {
      assert [] + [c] == [c];
      assert [c][1..] == [];
    } else {
      CleanKeeps(a[1..], c);
      assert (a + [c])[1..] == a[1..] + [c];
    }
  }

  /** What the lease stores of a text: what cleaning keeps of it, cut to 1021 characters and three dots when
      that is longer than 1024, or a text that only names the field when nothing visible is left. */
  lemma ShapeIs(t: Text, field: Field)
    ensures Accepted(Clean(t)) ==> Shape(t, field) == Clean(t)
    ensures |Clean(t)| > 1024 ==> Shape(t, field) == Clean(t)[..1021] + [0x2E, 0x2E, 0x2E]
    ensures |Clean(t)| <= 1024 && Blank(Clean(t)) ==>
              Shape(t, field) == Ascii(if field.Code? then "<unprintable code>" else "<unprintable message>")
  {
    assert Ascii("...") == [0x2E, 0x2E, 0x2E];
    if |Clean(t)| > 1024 {
      assert Truncate(Clean(t))[1021] == 0x2E;
    }
    UnprintableIs(field);
  }

  lemma UnprintableIs(field: Field)
    ensures Unprintable(field) == Ascii(if field.Code? then "<unprintable code>" else "<unprintable message>")
  {
    AsciiConcat("<unprintable ", Name(field));
    AsciiConcat("<unprintable " + Name(field), ">");
    if field.Code? {
      assert "<unprintable " + "code" + ">" == "<unprintable code>";
    } else {
      assert "<unprintable " + "message" + ">" == "<unprintable message>";
    }
  }

  lemma AsciiConcat(a: string, b: string)
    requires forall i :: 0 <= i < |a| ==> a[i] < 128 as char
    requires forall i :: 0 <= i < |b| ==> b[i] < 128 as char
    ensures Ascii(a + b) == Ascii(a) + Ascii(b)
  {
  }

  // ---------------------------------------------------------------- unicode-escape

  function HexDigit(n: nat): CodePoint
    requires n < 16
  {
    if n < 10 then 0x30 + n else 0x61 + n - 10
  }

  function Hex(n: nat, width: nat): (t: Text)
    ensures |t| == width
  {
    if width == 0 then [] else Hex(n / 16, width - 1) + [HexDigit(n % 16)]
  }

  function HexValue(c: CodePoint): Option<nat> {
    if 0x30 <= c <= 0x39 then Some(c - 0x30)
    else if 0x61 <= c <= 0x66 then Some(c - 0x61 + 10)
    else if 0x41 <= c <= 0x46 then Some(c - 0x41 + 10)
    else None
  }

  function ParseHex(t: Text): Option<nat> {
    if t == [] then Some(0)
    else
      var high, low := ParseHex(t[..|t| - 1]), HexValue(t[|t| - 1]);
      if high.Some? && low.Some? then Some(high.value * 16 + low.value) else None
  }

  function Pow16(width: nat): nat {
    if width == 0 then 1 else 16 * Pow16(width - 1)
  }

  lemma {:induction false} HexReadsBack(n: nat, width: nat)
    requires n < Pow16(width)
    ensures ParseHex(Hex(n, width)) == Some(n)
  {
    if width > 0 {
      HexReadsBack(n / 16, width - 1);
      assert Hex(n, width)[..width - 1] == Hex(n / 16, width - 1);
    }
  }

  function EscapeOne(c: CodePoint): Text {
    if c == BACKSLASH then [BACKSLASH, BACKSLASH]
    else if c == 0x09 then [BACKSLASH, 0x74]
    else if c == 0x0A then [BACKSLASH, 0x6E]
    else if c == 0x0D then [BACKSLASH, 0x72]
    else if 0x20 <= c < 0x7F then [c]
    else if c < 0x100 then [BACKSLASH, 0x78] + Hex(c, 2)
    else if c < 0x10000 then [BACKSLASH, 0x75] + Hex(c, 4)
    else [BACKSLASH, 0x55] + Hex(c, 8)
  }

  /** `_escape_lease_original`. */
  function Escape(t: Text): Text {
    if t == [] then [] else EscapeOne(t[0]) + Escape(t[1..])
  }

  function OctalRun(t: Text, most: nat): (n: nat)
    ensures n <= most && n <= |t| && forall i :: 0 <= i < n ==> 0x30 <= t[i] <= 0x37
  {
    if most == 0 || t == [] || !(0x30 <= t[0] <= 0x37) then 0 else 1 + OctalRun(t[1..], most - 1)
  }

  function OctalValue(t: Text): (v: nat)
    requires |t| <= 3 && forall i :: 0 <= i < |t| ==> 0x30 <= t[i] <= 0x37
    ensures v < 512 && (|t| <= 2 ==> v < 64) && (|t| <= 1 ==> v < 8) && (|t| == 0 ==> v == 0)
  {
    if t == [] then 0 else OctalValue(t[..|t| - 1]) * 8 + (t[|t| - 1] - 0x30)
  }

  function Find(t: Text, c: CodePoint): (at: nat)
    ensures at <= |t| && (at < |t| ==> t[at] == c)
  {
    if t == [] || t[0] == c then 0 else 1 + Find(t[1..], c)
  }

  /** Character names that `\N{...}` knows. */
  type Names = map<Text, CodePoint>

  function Then(head: Text, rest: Option<Text>): Option<Text> {
    if rest.Some? then Some(head + rest.value) else None
  }

  function UnescapeHex(t: Text, width: nat, names: Names): Option<Text>
    decreases |t|, 0
  {
    if |t| < 2 + width then None
    else
      var value := ParseHex(t[2..2 + width]);
      if value.None? || value.value >= 0x110000 then None else Then([value.value], Unescape(t[2 + width..], names))
  }

  function UnescapeName(t: Text, names: Names): Option<Text>
    requires |t| >= 2
    decreases |t|, 0
  {
    if |t| < 3 || t[2] != 0x7B then None
    else
      var close := Find(t[3..], 0x7D);
      if close == |t| - 3 || close == 0 || t[3..3 + close] !in names then None
      else Then([names[t[3..3 + close]]], Unescape(t[4 + close..], names))
  }

  /** Decoding `unicode-escape` text that is already ASCII. */
  function Unescape(t: Text, names: Names): Option<Text>
    decreases |t|, 1
  {
    if t == [] then Some([])
    else if t[0] != BACKSLASH then Then([t[0]], Unescape(t[1..], names))
    else if |t| == 1 then None
    else if t[1] == 0x0A then Unescape(t[2..], names)
    else if t[1] in {BACKSLASH, 0x27, 0x22} then Then([t[1]], Unescape(t[2..], names))
    else if t[1] == 0x62 then Then([0x08], Unescape(t[2..], names))
    else if t[1] == 0x66 then Then([0x0C], Unescape(t[2..], names))
    else if t[1] == 0x74 then Then([0x09], Unescape(t[2..], names))
    else if t[1] == 0x6E then Then([0x0A], Unescape(t[2..], names))
    else if t[1] == 0x72 then Then([0x0D], Unescape(t[2..], names))
    else if t[1] == 0x76 then Then([0x0B], Unescape(t[2..], names))
    else if t[1] == 0x61 then Then([0x07], Unescape(t[2..], names))
    else if 0x30 <= t[1] <= 0x37 then
      var n := OctalRun(t[1..], 3);
      Then([OctalValue(t[1..1 + n])], Unescape(t[1 + n..], names))
    else if t[1] == 0x78 then UnescapeHex(t, 2, names)
    else if t[1] == 0x75 then UnescapeHex(t, 4, names)
    else if t[1] == 0x55 then UnescapeHex(t, 8, names)
    else if t[1] == 0x4E then UnescapeName(t, names)
    else Then([BACKSLASH, t[1]], Unescape(t[2..], names))
  }

  predicate IsAscii(t: Text) {
    forall i :: 0 <= i < |t| ==> t[i] < 0x80
  }

  /** `_unescape_lease_original`; nothing when it raises. */
  function UnescapeOriginal(t: Text, names: Names): Option<Text> {
    if IsAscii(t) then Unescape(t, names) else None
  }

  lemma UnescapesHex(c: CodePoint, kind: CodePoint, width: nat, rest: Text, names: Names)
    requires c < Pow16(width)
    ensures UnescapeHex([BACKSLASH, kind] + Hex(c, width) + rest, width, names) == Then([c], Unescape(rest, names))
  {
    var t := [BACKSLASH, kind] + Hex(c, width) + rest;
    assert t[2..2 + width] == Hex(c, width);
    assert t[2 + width..] == rest;
    HexReadsBack(c, width);
  }

  lemma UnescapesOne(c: CodePoint, rest: Text, names: Names)
    ensures Unescape(EscapeOne(c) + rest, names) == Then([c], Unescape(rest, names))
  {
    var t := EscapeOne(c) + rest;
    if c == BACKSLASH || c == 0x09 || c == 0x0A || c == 0x0D {
      assert t[2..] == rest;
    } else if 0x20 <= c < 0x7F {
      assert t[1..] == rest;
    } else {
      assert Pow16(2) == 0x100;
      assert Pow16(4) == 0x10000;
      assert Pow16(8) == 0x100000000;
      if c < 0x100 {
        UnescapesHex(c, 0x78, 2, rest, names);
      } else if c < 0x10000 {
        UnescapesHex(c, 0x75, 4, rest, names);
      } else {
        UnescapesHex(c, 0x55, 8, rest, names);
      }
    }
  }

  lemma {:induction false} HexIsAscii(n: nat, width: nat)
    ensures IsAscii(Hex(n, width))
  {
    if width > 0 {
      HexIsAscii(n / 16, width - 1);
    }
  }

  /** Escaping any text, unpaired surrogates included, gives ASCII that unescapes to the same text. */
  lemma {:induction false} EscapeReadsBack(t: Text, names: Names)
    ensures UnescapeOriginal(Escape(t), names) == Some(t)
  {
    if t != [] {
      EscapeReadsBack(t[1..], names);
      UnescapesOne(t[0], Escape(t[1..]), names);
      HexIsAscii(t[0], 2);
      HexIsAscii(t[0], 4);
      HexIsAscii(t[0], 8);
      assert [t[0]] + t[1..] == t;
    }
  }

  // ---------------------------------------------------------------- failures

  /** JSON details of a failure, as far as the codec looks at them. */
  datatype Detail = Dict(entries: map<string, Leaf>) | OtherJson(id: nat)

  datatype Leaf = TextLeaf(text: Text) | OtherLeaf(id: nat)

  datatype Failure = Failure(code: Text, message: Text, details: map<string, Detail>)

  const RESERVED := "_whetstone_lease_original"

  /** The recorded originals; an entry that is no dictionary counts as none. */
  function EnvelopeOf(details: map<string, Detail>): map<string, Leaf> {
    if RESERVED in details && details[RESERVED].Dict? then details[RESERVED].entries else map[]
  }

  /** The details after the original of one field is recorded. */
  function Recorded(details: map<string, Detail>, field: Field, original: Text): map<string, Detail> {
    var envelope := EnvelopeOf(details);
    details[RESERVED := Dict(envelope[Name(field) := TextLeaf(Escape(original))])]
  }

  function Kept(details: map<string, Detail>, field: Field, original: Text): map<string, Detail> {
    if Shape(original, field) != original then Recorded(details, field, original) else details
  }

  /** `_to_lease_failure`. */
  function ToLease(f: Failure): Failure {
    Failure(Shape(f.code, Code), Shape(f.message, Message), Kept(Kept(f.details, Code, f.code), Message, f.message))
  }

  /** The text of one field after decoding; nothing when decoding raises.  An escaped original is only believed
      when coercing it gives the stored text. */
  function Restored(stored: Text, field: Field, envelope: map<string, Leaf>, names: Names): Option<Text> {
    if Name(field) in envelope && envelope[Name(field)].TextLeaf? then
      var original := UnescapeOriginal(envelope[Name(field)].text, names);
      if original.None? then None
      else if Shape(original.value, field) == stored then original
      else Some(stored)
    else Some(stored)
  }

  /** `_from_lease_failure`; nothing when it raises, which includes rebuilding an empty code or message. */
  function FromLease(g: Failure, names: Names): Option<Failure> {
    var envelope := EnvelopeOf(g.details);
    var code, message := Restored(g.code, Code, envelope, names), Restored(g.message, Message, envelope, names);
    if code.None? || message.None? || code.value == [] || message.value == [] then None
    else Some(Failure(code.value, message.value, g.details - {RESERVED}))
  }

  method CleanText(value: Text) returns (text: Text)
    ensures text == Clean(value)
  {
    text := [];
    var i := 0;
    while i < |value|
      invariant i <= |value| && text == Clean(value[..i])
    {
      CleanKeeps(value[..i], value[i]);
      assert value[..i + 1] == value[..i] + [value[i]];
      if value[i] != 0 && !Surrogate(value[i]) {
        text := text + [value[i]];
      }
      i := i + 1;
    }
    assert value[..|value|] == value;
  }

  /** The details dictionary that encoding updates in place. */
  class Details {
    var entries: map<string, Detail>

    constructor (entries: map<string, Detail>)
      ensures this.entries == entries
    {
      this.entries := entries;
    }

    /** `_lease_text`. */
    method LeaseText(value: Text, field: Field) returns (text: Text)
      modifies this
      ensures text == Shape(value, field) && entries == Kept(old(entries), field, value)
    {
      text := CleanText(value);
      if |text| > LIMIT {
        text := text[..LIMIT - 3] + Ascii("...");
      }
      if Blank(text) {
        text := Unprintable(field);
      }
      if text != value {
        var envelope: map<string, Leaf> := map[];
        if RESERVED in entries && entries[RESERVED].Dict? {
          envelope := entries[RESERVED].entries;
        }
        envelope := envelope[Name(field) := TextLeaf(Escape(value))];
        entries := entries[RESERVED := Dict(envelope)];
      }
    }
  }

  method ToLeaseFailure(f: Failure) returns (g: Failure)
    ensures g == ToLease(f)
  {
    var details := new Details(f.details);
    var code := details.LeaseText(f.code, Code);
    var message := details.LeaseText(f.message, Message);
    return Failure(code, message, details.entries);
  }

  method FromLeaseFailure(g: Failure, names: Names) returns (result: Option<Failure>)
    ensures result == FromLease(g, names)
  {
    var details := g.details;
    var code, message := g.code, g.message;
    if RESERVED in details && details[RESERVED].Dict? {
      var envelope := details[RESERVED].entries;
      if "code" in envelope && envelope["code"].TextLeaf? {
        var original := UnescapeOriginal(envelope["code"].text, names);
        if original.None? { return None; }
        if Shape(original.value, Code) == code { code := original.value; }
      }
      if "message" in envelope && envelope["message"].TextLeaf? {
        var original := UnescapeOriginal(envelope["message"].text, names);
        if original.None? { return None; }
        if Shape(original.value, Message) == message { message := original.value; }
      }
    }
    details := details - {RESERVED};
    if code == [] || message == [] { return None; }
    return Some(Failure(code, message, details));
  }

  // ---------------------------------------------------------------- the main results

  /** Encoded text is always non-blank, at most 1024 long, and free of NUL and surrogates. */
  lemma EncodedIsAccepted(f: Failure)
    ensures Accepted(ToLease(f).code) && Accepted(ToLease(f).message)
  {
    ShapeIsAccepted(f.code, Code);
    ShapeIsAccepted(f.message, Message);
  }

  lemma RestoresOriginal(original: Text, field: Field, envelope: map<string, Leaf>, names: Names)
    requires Name(field) in envelope ==> envelope[Name(field)] == TextLeaf(Escape(original))
    requires Name(field) !in envelope ==> Shape(original, field) == original
    ensures Restored(Shape(original, field), field, envelope, names) == Some(original)
  {
    EscapeReadsBack(original, names);
  }

  lemma KeptFacts(details: map<string, Detail>, field: Field, original: Text)
    ensures var kept := Kept(details, field, original);
            && kept - {RESERVED} == details - {RESERVED}
            && EnvelopeOf(kept) == (if Shape(original, field) != original
                                    then EnvelopeOf(details)[Name(field) := TextLeaf(Escape(original))] else EnvelopeOf(details))
  {
  }

  lemma EncodedDetails(f: Failure)
    requires RESERVED !in f.details
    ensures var envelope := EnvelopeOf(ToLease(f).details);
            && ToLease(f).details - {RESERVED} == f.details
            && (Name(Code) in envelope ==> envelope[Name(Code)] == TextLeaf(Escape(f.code)))
            && (Name(Code) !in envelope ==> Shape(f.code, Code) == f.code)
            && (Name(Message) in envelope ==> envelope[Name(Message)] == TextLeaf(Escape(f.message)))
            && (Name(Message) !in envelope ==> Shape(f.message, Message) == f.message)
  {
    KeptFacts(f.details, Code, f.code);
    KeptFacts(Kept(f.details, Code, f.code), Message, f.message);
    assert f.details - {RESERVED} == f.details;
    assert |Name(Code)| != |Name(Message)|;
  }

  /** The entry of one field after encoding: the escaped original when the text was coerced, and otherwise
      whatever the caller's envelope held. */
  ghost predicate EntryIs(f: Failure, field: Field, original: Text) {
    var before, after := EnvelopeOf(f.details), EnvelopeOf(ToLease(f).details);
    if Accepted(original) then
      (Name(field) in after <==> Name(field) in before) && (Name(field) in before ==> after[Name(field)] == before[Name(field)])
    else
      Name(field) in after && after[Name(field)] == TextLeaf(Escape(original))
  }

  /** Encoding records the original of exactly the texts that a lease would not accept, and changes nothing
      else: a failure that a lease accepts is left as it is. */
  lemma RecordedIff(f: Failure)
    ensures EntryIs(f, Code, f.code) && EntryIs(f, Message, f.message)
    ensures ToLease(f).details - {RESERVED} == f.details - {RESERVED}
    ensures Accepted(f.code) && Accepted(f.message) ==> ToLease(f) == f
    ensures RESERVED in ToLease(f).details <==> RESERVED in f.details || !Accepted(f.code) || !Accepted(f.message)
    ensures EnvelopeOf(ToLease(f).details) - {"code", "message"} == EnvelopeOf(f.details) - {"code", "message"}
  {
    ShapeIsAccepted(f.code, Code);
    ShapeIsAccepted(f.message, Message);
    KeptFacts(f.details, Code, f.code);
    KeptFacts(Kept(f.details, Code, f.code), Message, f.message);
    assert |Name(Code)| != |Name(Message)|;
  }

  /** Decoding an encoded failure gives back the original exactly when its details lack the reserved key. */
  lemma FailureRoundTrip(f: Failure, names: Names)
    requires f.code != [] && f.message != []
    ensures FromLease(ToLease(f), names) == Some(f) <==> RESERVED !in f.details
  {
    var g := ToLease(f);
    if RESERVED !in f.details {
      EncodedDetails(f);
      RestoresOriginal(f.code, Code, EnvelopeOf(g.details), names);
      RestoresOriginal(f.message, Message, EnvelopeOf(g.details), names);
    } else {
      DecodedLacksReserved(g, names);
    }
  }

  /** Decoding takes the reserved key away and keeps every other detail. */
  lemma DecodedLacksReserved(g: Failure, names: Names)
    ensures FromLease(g, names).Some? ==> FromLease(g, names).value.details == g.details - {RESERVED}
  {
  }

  /** An envelope entry that decoding cannot take: it is no ASCII escape text, or it stands for an empty
      original that coerces to the stored text. */
  predicate Undecodable(stored: Text, field: Field, envelope: map<string, Leaf>, names: Names) {
    && Name(field) in envelope && envelope[Name(field)].TextLeaf?
    && var original := UnescapeOriginal(envelope[Name(field)].text, names);
       original.None? || (original.value == [] && stored == Unprintable(field))
  }

  /** For stored text in the accepted shape, decoding raises exactly on an undecodable envelope entry, and what
      it decodes encodes to the same code and message, whatever else the envelope holds. */
  lemma DecodedEncodesBack(g: Failure, names: Names)
    requires Accepted(g.code) && Accepted(g.message)
    ensures FromLease(g, names).None? <==>
              Undecodable(g.code, Code, EnvelopeOf(g.details), names) || Undecodable(g.message, Message, EnvelopeOf(g.details), names)
    ensures FromLease(g, names).Some? ==>
              && ToLease(FromLease(g, names).value).code == g.code
              && ToLease(FromLease(g, names).value).message == g.message
  {
    RestoredEncodes(g.code, Code, EnvelopeOf(g.details), names);
    RestoredEncodes(g.message, Message, EnvelopeOf(g.details), names);
  }

  lemma RestoredEncodes(stored: Text, field: Field, envelope: map<string, Leaf>, names: Names)
    requires Accepted(stored)
    ensures var r := Restored(stored, field, envelope, names);
            && (r.None? || r.value == [] <==> Undecodable(stored, field, envelope, names))
            && (r.Some? ==> Shape(r.value, field) == stored)
  {
    ShapeIsAccepted(stored, field);
    assert Clean([]) == [] && Truncate([]) == [];
    assert Shape([], field) == Unprintable(field);
  }

  /** A stuffed envelope can make decoding raise: a single backslash is no escape text. */
  lemma StuffedEnvelopeRaises(names: Names)
    ensures var g := Failure([0x61], [0x62], map[RESERVED := Dict(map["code" := TextLeaf([BACKSLASH])])]);
            Accepted(g.code) && Accepted(g.message) && FromLease(g, names) == None
  {
    var t: Text := [0x61];
    assert !Space(t[0]);
    var u: Text := [0x62];
    assert !Space(u[0]);
    var s: Text := [BACKSLASH];
    assert s[0] == BACKSLASH && Unescape(s, names) == None;
  }
}
