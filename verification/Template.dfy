/** Candidate templates: the placeholder scanner, the checks built on it and the rendering, against
    the format mini-language that `str.format_map` itself applies. */
module Template {

  datatype Result<+T, +E> = Ok(value: T) | Err(error: E)

  /** The characters that may start and continue an identifier.  None of them means anything to the
      format mini-language. */
  datatype Alphabet = Alphabet(start: set<char>, more: set<char>) {
    ghost predicate Valid() {
      forall c :: c in start + more ==> c !in "{}!:.[]"
    }
  }

  predicate IsIdentifier(al: Alphabet, s: string) {
    |s| > 0 && s[0] in al.start && forall i :: 0 < i < |s| ==> s[i] in al.more
  }

  datatype ScanError = UnmatchedOpen | NestedOpen | UnsupportedField | UnmatchedClose

  /** `str.find` of one character; the length of the text when there is none. */
  function Find(text: string, c: char, from: nat): (at: nat)
    requires from <= |text|
    ensures from <= at <= |text|
    ensures at < |text| ==> text[at] == c
    ensures forall k :: from <= k < at ==> text[k] != c
    decreases |text| - from
  {
    if from == |text| || text[from] == c then from else Find(text, c, from + 1)
  }

  function Prepend<E>(head: string, rest: Result<seq<string>, E>): Result<seq<string>, E> {
    if rest.Ok? then Ok([head] + rest.value) else rest
  }

  /** The fields found from `index` on. */
  function Scan(al: Alphabet, text: string, index: nat): Result<seq<string>, ScanError>
    requires index <= |text|
    decreases |text| - index
  {
    if index == |text| then Ok([])
    else if text[index] == '{' then
      if index + 1 < |text| && text[index + 1] == '{' then Scan(al, text, index + 2)
      else
        var closing := Find(text, '}', index + 1);
        if closing == |text| then Err(UnmatchedOpen)
        else if '{' in text[index + 1..closing] then Err(NestedOpen)
        else if !IsIdentifier(al, text[index + 1..closing]) then Err(UnsupportedField)
        else Prepend(text[index + 1..closing], Scan(al, text, closing + 1))
    else if text[index] == '}' then
      if index + 1 < |text| && text[index + 1] == '}' then Scan(al, text, index + 2) else Err(UnmatchedClose)
    else Scan(al, text, index + 1)
  }

  /** The loop of `placeholder_fields` for `python_format/v1`. */
  method PlaceholderFields(al: Alphabet, text: string) returns (result: Result<seq<string>, ScanError>)
    ensures result == Scan(al, text, 0)
  {
    var fields: seq<string> := [];
    var index := 0;
    assert Append([], Scan(al, text, 0)) == Scan(al, text, 0) by {
      if Scan(al, text, 0).Ok? { assert [] + Scan(al, text, 0).value == Scan(al, text, 0).value; }
    }
    while index < |text|
      invariant index <= |text|
      invariant Scan(al, text, 0) == Append(fields, Scan(al, text, index))
    {
      if text[index] == '{' {
        if index + 1 < |text| && text[index + 1] == '{' {
          index := index + 2;
          continue;
        }
        var closing := Find(text, '}', index + 1);
        if closing == |text| { return Err(UnmatchedOpen); }
        var name := text[index + 1..closing];
        if '{' in name { return Err(NestedOpen); }
        if !IsIdentifier(al, name) { return Err(UnsupportedField); }
        AppendPrepend(fields, name, Scan(al, text, closing + 1));
        fields := fields + [name];
        index := closing + 1;
        continue;
      }
      if text[index] == '}' {
        if index + 1 < |text| && text[index + 1] == '}' {
          index := index + 2;
          continue;
        }
        return Err(UnmatchedClose);
      }
      index := index + 1;
    }
    assert fields + [] == fields;
    return Ok(fields);
  }

  function Append(head: seq<string>, rest: Result<seq<string>, ScanError>): Result<seq<string>, ScanError> {
    if rest.Ok? then Ok(head + rest.value) else rest
  }

  lemma AppendPrepend(head: seq<string>, name: string, rest: Result<seq<string>, ScanError>)
    ensures Append(head, Prepend(name, rest)) == Append(head + [name], rest)
  {
    if rest.Ok? {
      assert head + ([name] + rest.value) == (head + [name]) + rest.value;
    }
  }

  // ---------------------------------------------------------------- the format mini-language

  /** A literal character, or a replacement field with everything between its braces. */
  datatype Piece = Literal(c: char) | Replacement(expression: string)

  datatype FormatError = SingleOpen | SingleClose | ExpectedClose

  /** The end of a conversion or format specification: nested braces must balance. */
  function MatchingClose(text: string, from: nat, depth: nat): (at: nat)
    requires from <= |text| && depth > 0
    ensures from <= at <= |text| && (at < |text| ==> text[at] == '}')
    decreases |text| - from
  {
    if from == |text| then from
    else if text[from] == '{' then MatchingClose(text, from + 1, depth + 1)
    else if text[from] == '}' then if depth == 1 then from else MatchingClose(text, from + 1, depth - 1)
    else MatchingClose(text, from + 1, depth)
  }

  /** The end of a replacement field, or the end of the text when the field is malformed: a name holds no
      opening brace, an index in brackets is skipped, a colon or an exclamation mark starts what follows
      the name. */
  function FieldEnd(text: string, from: nat): (at: nat)
    requires from <= |text|
    ensures from <= at <= |text| && (at < |text| ==> text[at] == '}')
    decreases |text| - from
  {
    if from == |text| || text[from] == '{' then |text|
    else if text[from] == '}' then from
    else if text[from] == ':' || text[from] == '!' then MatchingClose(text, from + 1, 1)
    else if text[from] != '[' then FieldEnd(text, from + 1)
    else
      var index := Find(text, ']', from);
      if index == |text| then |text| else FieldEnd(text, index + 1)
  }

  function Cons(piece: Piece, rest: Result<seq<Piece>, FormatError>): Result<seq<Piece>, FormatError> {
    if rest.Ok? then Ok([piece] + rest.value) else rest
  }

  /** How formatting splits a text: doubled braces are literal braces, a brace opens a field. */
  function Parse(text: string, index: nat): Result<seq<Piece>, FormatError>
    requires index <= |text|
    decreases |text| - index
  {
    if index == |text| then Ok([])
    else if text[index] !in "{}" then Cons(Literal(text[index]), Parse(text, index + 1))
    else if index + 1 < |text| && text[index + 1] == text[index] then Cons(Literal(text[index]), Parse(text, index + 2))
    else if text[index] == '}' then Err(SingleClose)
    else if index + 1 == |text| then Err(SingleOpen)
    else
      var closing := FieldEnd(text, index + 1);
      if closing == |text| then Err(ExpectedClose)
      else Cons(Replacement(text[index + 1..closing]), Parse(text, closing + 1))
  }

  /** The fields that formatting substitutes, in order. */
  function Substituted(pieces: seq<Piece>): seq<string> {
    if pieces == [] then []
    else (if pieces[0].Replacement? then [pieces[0].expression] else []) + Substituted(pieces[1..])
  }

  predicate AllIdentifiers(al: Alphabet, names: seq<string>) {
    forall i :: 0 <= i < |names| ==> IsIdentifier(al, names[i])
  }

  lemma {:induction false} PlainFieldEnd(text: string, from: nat, closing: nat)
    requires from <= closing < |text| && text[closing] == '}'
    requires forall k :: from <= k < closing ==> text[k] !in "{}!:.[]"
    ensures FieldEnd(text, from) == closing
    decreases closing - from
  {
    if from < closing {
      assert text[from] !in "{}!:.[]";
      PlainFieldEnd(text, from + 1, closing);
    }
  }

  /** The scanner accepts a text exactly when formatting can split it and every field is a plain name, and
      then its list is exactly what formatting substitutes, in order and multiplicity. */
  lemma {:induction false} ScannerIsFormat(al: Alphabet, text: string, index: nat)
    requires al.Valid() && index <= |text|
    ensures Scan(al, text, index).Ok? <==>
              Parse(text, index).Ok? && AllIdentifiers(al, Substituted(Parse(text, index).value))
    ensures Scan(al, text, index).Ok? ==> Scan(al, text, index).value == Substituted(Parse(text, index).value)
    decreases |text| - index
  {
    if index < |text| {
      if text[index] !in "{}" {
        ScannerIsFormat(al, text, index + 1);
        SubstitutedCons(al, Literal(text[index]), Parse(text, index + 1));
      } else if index + 1 < |text| && text[index + 1] == text[index] {
        ScannerIsFormat(al, text, index + 2);
        SubstitutedCons(al, Literal(text[index]), Parse(text, index + 2));
      } else if text[index] == '{' {
        FieldIsFormat(al, text, index);
      }
    }
  }

  lemma SubstitutedCons(al: Alphabet, piece: Piece, rest: Result<seq<Piece>, FormatError>)
    ensures rest.Ok? ==>
              && Substituted(Cons(piece, rest).value) ==
                 (if piece.Replacement? then [piece.expression] else []) + Substituted(rest.value)
              && (AllIdentifiers(al, Substituted(Cons(piece, rest).value)) <==>
                    && (piece.Replacement? ==> IsIdentifier(al, piece.expression))
                    && AllIdentifiers(al, Substituted(rest.value)))
  {
    if rest.Ok? {
      assert ([piece] + rest.value)[1..] == rest.value;
      AllIdentifiersConcat(al, if piece.Replacement? then [piece.expression] else [], Substituted(rest.value));
    }
  }

  lemma AllIdentifiersConcat(al: Alphabet, a: seq<string>, b: seq<string>)
    ensures AllIdentifiers(al, a + b) <==> AllIdentifiers(al, a) && AllIdentifiers(al, b)
  {
    assert forall i :: 0 <= i < |a| ==> (a + b)[i] == a[i];
    assert forall i :: 0 <= i < |b| ==> (a + b)[i + |a|] == b[i];
  }

  /** The case of an opening brace that is not doubled. */
  lemma {:induction false} FieldIsFormat(al: Alphabet, text: string, index: nat)
    requires al.Valid() && index < |text| && text[index] == '{'
    requires index + 1 < |text| ==> text[index + 1] != '{'
    ensures Scan(al, text, index).Ok? <==>
              Parse(text, index).Ok? && AllIdentifiers(al, Substituted(Parse(text, index).value))
    ensures Scan(al, text, index).Ok? ==> Scan(al, text, index).value == Substituted(Parse(text, index).value)
    decreases |text| - index, 0
  {
    if index + 1 < |text| {
      var first, closing := Find(text, '}', index + 1), FieldEnd(text, index + 1);
      if first < |text| && IsIdentifier(al, text[index + 1..first]) {
        IdentifierIsPlain(al, text, index + 1, first);
        PlainFieldEnd(text, index + 1, first);
      }
      if closing < |text| && IsIdentifier(al, text[index + 1..closing]) {
        IdentifierIsPlain(al, text, index + 1, closing);
        assert first == closing;
        assert '{' !in text[index + 1..closing];
        ScannerIsFormat(al, text, closing + 1);
      }
      if closing < |text| {
        SubstitutedCons(al, Replacement(text[index + 1..closing]), Parse(text, closing + 1));
      }
    }
  }

  lemma IdentifierIsPlain(al: Alphabet, text: string, from: nat, to: nat)
    requires al.Valid() && from <= to <= |text| && IsIdentifier(al, text[from..to])
    ensures forall k :: from <= k < to ==> text[k] !in "{}!:.[]"
  {
    forall k | from <= k < to
      ensures text[k] !in "{}!:.[]"
    {
      assert text[k] == text[from..to][k - from];
      assert text[k] in al.start + al.more;
    }
  }

  // ---------------------------------------------------------------- contracts and rendering

  datatype Kind = PythonFormat | LiteralReplace | LiteralBody

  datatype Contract = Contract(kind: Kind, available: seq<string>, required: seq<string>) {
    /** What the constructor accepts. */
    ghost predicate Valid(al: Alphabet) {
      && AllIdentifiers(al, available + required)
      && (forall i, j :: 0 <= i < j < |available| ==> available[i] != available[j])
      && (forall f :: f in required ==> f in available)
      && (kind.LiteralReplace? ==> |available| == 1)
      && (kind.LiteralBody? ==> available == [] && required == [])
    }
  }

  datatype Value = Text(s: string) | NotText

  datatype RenderError = EmptyTemplate | Malformed(e: ScanError) | Unavailable | TooFewRequired | MissingValue | NonStringValue

  function Occurrences(names: seq<string>, name: string): nat {
    multiset(names)[name]
  }

  function Placeholder(field: string): string { "{" + field + "}" }

  predicate OccursAt(text: string, pattern: string, at: nat) {
    at + |pattern| <= |text| && text[at..at + |pattern|] == pattern
  }

  /** `str.count` from an index on: occurrences found from the left without overlap. */
  function CountOf(text: string, pattern: string, from: nat): nat
    requires |pattern| > 0 && from <= |text|
    decreases |text| - from
  {
    if from == |text| then 0
    else if OccursAt(text, pattern, from) then 1 + CountOf(text, pattern, from + |pattern|)
    else CountOf(text, pattern, from + 1)
  }

  /** `str.replace` from an index on. */
  function ReplaceAll(text: string, pattern: string, value: string, from: nat): string
    requires |pattern| > 0 && from <= |text|
    decreases |text| - from
  {
    if from == |text| then ""
    else if OccursAt(text, pattern, from) then value + ReplaceAll(text, pattern, value, from + |pattern|)
    else [text[from]] + ReplaceAll(text, pattern, value, from + 1)
  }

  function Repeat(field: string, n: nat): seq<string> {
    seq(n, _ => field)
  }

  /** `placeholder_fields` for every kind of contract. */
  function Fields(al: Alphabet, contract: Contract, text: string): Result<seq<string>, RenderError>
    requires contract.kind.LiteralReplace? ==> |contract.available| == 1
  {
    if text == [] then Err(EmptyTemplate)
    else match contract.kind
      case LiteralBody => Ok([])
      case LiteralReplace => Ok(Repeat(contract.available[0], CountOf(text, Placeholder(contract.available[0]), 0)))
      case PythonFormat =>
        (match Scan(al, text, 0)
         case Ok(fields) => Ok(fields)
         case Err(e) => Err(Malformed(e)))
  }

  /** `validate_template`. */
  function Validate(al: Alphabet, contract: Contract, text: string): Result<seq<string>, RenderError>
    requires contract.kind.LiteralReplace? ==> |contract.available| == 1
  {
    var observed := Fields(al, contract, text);
    if observed.Err? then observed
    else if exists i :: 0 <= i < |observed.value| && observed.value[i] !in contract.available then Err(Unavailable)
    else if exists i :: 0 <= i < |contract.required| &&
                        Occurrences(observed.value, contract.required[i]) < Occurrences(contract.required, contract.required[i])
    then Err(TooFewRequired)
    else observed
  }

  /** The result of formatting with every name bound to a string. */
  function Substitute(pieces: seq<Piece>, values: map<string, string>): string
    requires forall i :: 0 <= i < |pieces| && pieces[i].Replacement? ==> pieces[i].expression in values
  {
    if pieces == [] then ""
    else (match pieces[0] case Literal(c) => [c] case Replacement(name) => values[name]) + Substitute(pieces[1..], values)
  }

  lemma {:induction false} SubstitutedCovers(pieces: seq<Piece>, i: nat)
    requires i < |pieces| && pieces[i].Replacement?
    ensures pieces[i].expression in Substituted(pieces)
  {
    if i > 0 {
      SubstitutedCovers(pieces[1..], i - 1);
    }
  }

  /** `str.format_map` on an accepted template. */
  function FormatMap(text: string, values: map<string, string>): string
    requires Parse(text, 0).Ok?
    requires forall name :: name in Substituted(Parse(text, 0).value) ==> name in values
  {
    var pieces := Parse(text, 0).value;
    assert forall i :: 0 <= i < |pieces| && pieces[i].Replacement? ==> pieces[i].expression in values by {
      forall i | 0 <= i < |pieces| && pieces[i].Replacement?
        ensures pieces[i].expression in values
      {
        SubstitutedCovers(pieces, i);
      }
    }
    Substitute(pieces, values)
  }

  /** `render`.  It succeeds exactly when the template is valid and every field it uses is a string, and
      formatting then never looks up a name that is not there. */
  method Render(al: Alphabet, contract: Contract, text: string, values: map<string, Value>)
    returns (result: Result<string, RenderError>)
    requires al.Valid() && contract.Valid(al)
    ensures var observed := Validate(al, contract, text);
            result.Ok? <==>
              observed.Ok? && forall i :: 0 <= i < |observed.value| ==>
                observed.value[i] in values && values[observed.value[i]].Text?
    ensures Validate(al, contract, text).Err? ==> result == Err(Validate(al, contract, text).error)
    ensures var observed := Validate(al, contract, text);
            observed.Ok? && result.Err? ==>
              result.error == if forall i :: 0 <= i < |observed.value| ==> observed.value[i] in values
                              then NonStringValue else MissingValue
    ensures result.Ok? && contract.kind.LiteralBody? ==> result.value == text
    ensures result.Ok? && contract.kind.LiteralReplace? ==>
              var field := contract.available[0];
              result.value == (if CountOf(text, Placeholder(field), 0) == 0 then text
                               else if field in values && values[field].Text?
                                 then ReplaceAll(text, Placeholder(field), values[field].s, 0) else "")
    ensures result.Ok? && contract.kind.PythonFormat? ==>
              && Parse(text, 0).Ok?
              && (forall name :: name in Substituted(Parse(text, 0).value) ==> name in Strings(values))
              && result.value == FormatMap(text, Strings(values))
  {
    var validated := Validate(al, contract, text);
    if validated.Err? { return Err(validated.error); }
    var observed := validated.value;
    if contract.kind.LiteralBody? { return Ok(text); }
    var i := 0;
    while i < |observed|
      invariant i <= |observed|
      invariant forall k :: 0 <= k < i ==> observed[k] in values
    {
      if observed[i] !in values { return Err(MissingValue); }
      i := i + 1;
    }
    var renderValues: map<string, string> := map[];
    i := 0;
    while i < |observed|
      invariant i <= |observed|
      invariant forall k :: 0 <= k < i ==> values[observed[k]].Text? && observed[k] in renderValues
      invariant forall name :: name in renderValues ==> name in Strings(values) && renderValues[name] == Strings(values)[name]
    {
      if values[observed[i]].NotText? { return Err(NonStringValue); }
      renderValues := renderValues[observed[i] := values[observed[i]].s];
      i := i + 1;
    }
    if contract.kind.LiteralReplace? {
      if observed == [] { return Ok(text); }
      var field := contract.available[0];
      assert observed[0] == field;
      return Ok(ReplaceAll(text, Placeholder(field), renderValues[field], 0));
    }
    ScannerIsFormat(al, text, 0);
    forall name | name in Substituted(Parse(text, 0).value)
      ensures name in renderValues && name in Strings(values)
    {
    }
    SubstituteAgrees(Parse(text, 0).value, renderValues, Strings(values));
    return Ok(FormatMap(text, renderValues));
  }

  function Strings(values: map<string, Value>): map<string, string> {
    map name | name in values && values[name].Text? :: values[name].s
  }

  lemma {:induction false} SubstituteAgrees(pieces: seq<Piece>, a: map<string, string>, b: map<string, string>)
    requires forall name :: name in Substituted(pieces) ==> name in a && name in b && a[name] == b[name]
    ensures forall i :: 0 <= i < |pieces| && pieces[i].Replacement? ==>
              pieces[i].expression in a && pieces[i].expression in b
    ensures Substitute(pieces, a) == Substitute(pieces, b)
  {
    forall i | 0 <= i < |pieces| && pieces[i].Replacement?
      ensures pieces[i].expression in a && pieces[i].expression in b
    {
      SubstitutedCovers(pieces, i);
    }
    if pieces != [] {
      SubstituteAgrees(pieces[1..], a, b);
    }
  }

  // ---------------------------------------------------------------- escaping

  function DoubleBraces(text: string): string {
    if text == "" then ""
    else (if text[0] in "{}" then [text[0], text[0]] else [text[0]]) + DoubleBraces(text[1..])
  }

  function Literals(text: string): seq<Piece> {
    if text == "" then [] else [Literal(text[0])] + Literals(text[1..])
  }

  lemma {:induction false} DoubledParses(prefix: string, text: string)
    ensures Parse(prefix + DoubleBraces(text), |prefix|) == Ok(Literals(text))
    decreases |text|
  {
    var whole := prefix + DoubleBraces(text);
    if text != "" {
      var head := if text[0] in "{}" then [text[0], text[0]] else [text[0]];
      assert whole == (prefix + head) + DoubleBraces(text[1..]);
      DoubledParses(prefix + head, text[1..]);
    }
  }

  lemma {:induction false} LiteralsFacts(text: string, values: map<string, string>)
    ensures Substituted(Literals(text)) == []
    ensures forall i :: 0 <= i < |Literals(text)| ==> Literals(text)[i].Literal?
    ensures Substitute(Literals(text), values) == text
  {
    if text != "" {
      LiteralsFacts(text[1..], values);
      assert Literals(text)[1..] == Literals(text[1..]);
    }
  }

  /** Doubling the braces of any text gives a template without fields that renders back to the text,
      whatever the values. */
  lemma DoubledBracesRenderBack(al: Alphabet, text: string, values: map<string, string>)
    requires al.Valid()
    ensures Scan(al, DoubleBraces(text), 0) == Ok([])
    ensures Parse(DoubleBraces(text), 0).Ok? && Substituted(Parse(DoubleBraces(text), 0).value) == []
    ensures FormatMap(DoubleBraces(text), values) == text
  {
    assert "" + DoubleBraces(text) == DoubleBraces(text);
    DoubledParses("", text);
    LiteralsFacts(text, values);
    ScannerIsFormat(al, DoubleBraces(text), 0);
  }

  // ---------------------------------------------------------------- literal replacement

  /** All places from an index on where a pattern occurs, overlapping ones included. */
  function Places(text: string, pattern: string, from: nat): set<nat> {
    set at | from <= at < |text| && OccursAt(text, pattern, at)
  }

  /** Two occurrences of a placeholder never overlap: its only opening brace is its first character. */
  lemma PlaceholdersDisjoint(al: Alphabet, text: string, field: string, a: nat, b: nat)
    requires al.Valid() && IsIdentifier(al, field) && OccursAt(text, Placeholder(field), a)
    requires a < b < a + |Placeholder(field)|
    ensures !OccursAt(text, Placeholder(field), b)
  {
    var p := Placeholder(field);
    assert text[b] == text[a..a + |p|][b - a] == p[b - a];
    if b - a < |p| - 1 {
      assert p[b - a] == field[b - a - 1];
      assert field[b - a - 1] in al.start + al.more;
    }
    PlaceholderOpens(text, field, b);
  }

  lemma PlaceholderOpens(text: string, field: string, at: nat)
    ensures OccursAt(text, Placeholder(field), at) ==> text[at] == '{'
  {
    if OccursAt(text, Placeholder(field), at) {
      assert text[at] == text[at..at + |Placeholder(field)|][0];
    }
  }

  lemma {:induction false} CountIsPlaces(al: Alphabet, text: string, field: string, from: nat)
    requires al.Valid() && IsIdentifier(al, field) && from <= |text|
    ensures CountOf(text, Placeholder(field), from) == |Places(text, Placeholder(field), from)|
    decreases |text| - from
  {
    var p := Placeholder(field);
    if from == |text| {
      assert Places(text, p, from) == {};
    } else if OccursAt(text, p, from) {
      CountIsPlaces(al, text, field, from + |p|);
      PlacesAfter(al, text, field, from);
    } else {
      CountIsPlaces(al, text, field, from + 1);
      PlacesSkip(text, p, from);
    }
  }

  lemma PlacesAfter(al: Alphabet, text: string, field: string, from: nat)
    requires al.Valid() && IsIdentifier(al, field) && OccursAt(text, Placeholder(field), from) && from < |text|
    ensures |Places(text, Placeholder(field), from)| == 1 + |Places(text, Placeholder(field), from + |Placeholder(field)|)|
  {
    var p := Placeholder(field);
    forall at | from < at < from + |p|
      ensures !OccursAt(text, p, at)
    {
      PlaceholdersDisjoint(al, text, field, from, at);
    }
    assert Places(text, p, from) == {from} + Places(text, p, from + |p|);
  }

  lemma PlacesSkip(text: string, pattern: string, from: nat)
    requires !OccursAt(text, pattern, from)
    ensures Places(text, pattern, from) == Places(text, pattern, from + 1)
  {
  }

  lemma OneMoreGain(rest: nat, gain: int)
    ensures (1 + rest) * gain == gain + rest * gain
  {
  }

  lemma {:induction false} ReplacedLength(text: string, pattern: string, value: string, from: nat)
    requires |pattern| > 0 && from <= |text|
    ensures |ReplaceAll(text, pattern, value, from)| ==
              |text| - from + CountOf(text, pattern, from) * (|value| - |pattern|)
    decreases |text| - from
  {
    if from < |text| {
      if OccursAt(text, pattern, from) {
        ReplacedLength(text, pattern, value, from + |pattern|);
        OneMoreGain(CountOf(text, pattern, from + |pattern|), |value| - |pattern|);
      } else {
        ReplacedLength(text, pattern, value, from + 1);
      }
    }
  }

  /** `literal_replace/v1`: the number of reported fields is the number of places where the placeholder
      occurs at all, and it fixes the length of the rendered text. */
  lemma ReplacementCounts(al: Alphabet, text: string, field: string, value: string)
    requires al.Valid() && IsIdentifier(al, field)
    ensures CountOf(text, Placeholder(field), 0) == |Places(text, Placeholder(field), 0)|
    ensures |ReplaceAll(text, Placeholder(field), value, 0)| ==
              |text| + |Places(text, Placeholder(field), 0)| * (|value| - |Placeholder(field)|)
  {
    CountIsPlaces(al, text, field, 0);
    ReplacedLength(text, Placeholder(field), value, 0);
  }

  /** The pattern occurs at no place of a stretch. */
  predicate NoPlace(text: string, pattern: string, from: nat, to: nat)
    requires from <= to <= |text|
    decreases |text| - from
  {
    from == to || (!OccursAt(text, pattern, from) && NoPlace(text, pattern, from + 1, to))
  }

  lemma {:induction false} NoPlaceIf(text: string, pattern: string, from: nat, to: nat)
    requires from <= to <= |text| && forall at :: from <= at < to ==> !OccursAt(text, pattern, at)
    ensures NoPlace(text, pattern, from, to)
    decreases |text| - from
  {
    if from < to {
      NoPlaceIf(text, pattern, from + 1, to);
    }
  }

  lemma FirstOfSlice(text: string, from: nat, to: nat, rest: string)
    requires from < to <= |text|
    ensures [text[from]] + (text[from + 1..to] + rest) == text[from..to] + rest
  {
  }

  lemma {:induction false} ReplaceSkips(text: string, pattern: string, value: string, from: nat, to: nat)
    requires |pattern| > 0 && from <= to <= |text| && NoPlace(text, pattern, from, to)
    ensures ReplaceAll(text, pattern, value, from) == text[from..to] + ReplaceAll(text, pattern, value, to)
    decreases |text| - from
  {
    if from < to {
      ReplaceSkips(text, pattern, value, from + 1, to);
      FirstOfSlice(text, from, to, ReplaceAll(text, pattern, value, to));
    } else {
      assert text[from..to] == "";
    }
  }

  lemma OccursShifted(head: string, text: string, pattern: string, at: nat)
    requires at <= |text|
    ensures OccursAt(head + text, pattern, |head| + at) <==> OccursAt(text, pattern, at)
  {
    if at + |pattern| <= |text| {
      assert (head + text)[|head| + at..|head| + at + |pattern|] == text[at..at + |pattern|];
    }
  }

  lemma {:induction false} ReplaceShifted(head: string, text: string, pattern: string, value: string, from: nat)
    requires |pattern| > 0 && from <= |text|
    ensures ReplaceAll(head + text, pattern, value, |head| + from) == ReplaceAll(text, pattern, value, from)
    decreases |text| - from
  {
    if from < |text| {
      OccursShifted(head, text, pattern, from);
      if OccursAt(text, pattern, from) {
        ReplaceShifted(head, text, pattern, value, from + |pattern|);
      } else {
        ReplaceShifted(head, text, pattern, value, from + 1);
      }
    }
  }

  /** What replacement does to a text: nothing without the pattern, and otherwise it puts the value in place of the
      first occurrence and goes on behind it. */
  lemma ReplacementLaw(head: string, tail: string, pattern: string, value: string)
    requires |pattern| > 0 && forall at :: 0 <= at < |head| ==> !OccursAt(head + pattern + tail, pattern, at)
    ensures ReplaceAll(head + pattern + tail, pattern, value, 0) == head + value + ReplaceAll(tail, pattern, value, 0)
  {
    var text := head + pattern + tail;
    NoPlaceIf(text, pattern, 0, |head|);
    ReplaceSkips(text, pattern, value, 0, |head|);
    assert text[0..|head|] == head;
    assert text[|head|..|head| + |pattern|] == pattern;
    ReplaceShifted(head + pattern, tail, pattern, value, 0);
    assert head + (value + ReplaceAll(tail, pattern, value, 0)) == head + value + ReplaceAll(tail, pattern, value, 0);
  }

  lemma NothingToReplace(text: string, pattern: string, value: string)
    requires |pattern| > 0 && forall at :: 0 <= at < |text| ==> !OccursAt(text, pattern, at)
    ensures ReplaceAll(text, pattern, value, 0) == text
  {
    NoPlaceIf(text, pattern, 0, |text|);
    ReplaceSkips(text, pattern, value, 0, |text|);
    assert text[0..|text|] == text;
  }

  // ---------------------------------------------------------------- which templates a contract admits

  lemma {:induction false} RepeatCounts(field: string, n: nat)
    ensures forall name :: multiset(Repeat(field, n))[name] == if name == field then n else 0
  {
    if n > 0 {
      RepeatCounts(field, n - 1);
      assert Repeat(field, n) == Repeat(field, n - 1) + [field];
    }
  }

  /** A template is valid exactly when it is not empty, its fields can be read, every one of them is available, and
      every required field is used at least as often as it is required; a literal body needs no more than text. */
  lemma ValidIff(al: Alphabet, contract: Contract, text: string)
    requires al.Valid() && contract.Valid(al)
    ensures contract.kind.LiteralBody? ==> (Validate(al, contract, text).Ok? <==> text != "")
    ensures contract.kind.PythonFormat? ==>
              (Validate(al, contract, text).Ok? <==>
                 && text != "" && Parse(text, 0).Ok?
                 && var used := Substituted(Parse(text, 0).value);
                    && AllIdentifiers(al, used)
                    && (forall f :: f in used ==> f in contract.available)
                    && (forall f :: f in contract.required ==> multiset(contract.required)[f] <= multiset(used)[f]))
    ensures contract.kind.PythonFormat? && Validate(al, contract, text).Ok? ==>
              Validate(al, contract, text).value == Substituted(Parse(text, 0).value)
    ensures contract.kind.LiteralReplace? ==>
              var field := contract.available[0];
              var places := |Places(text, Placeholder(field), 0)|;
              && (Validate(al, contract, text).Ok? <==> text != "" && |contract.required| <= places)
              && (Validate(al, contract, text).Ok? ==> Validate(al, contract, text).value == Repeat(field, places))
    ensures text == "" ==> Validate(al, contract, text) == Err(EmptyTemplate)
  {
    match contract.kind
    case LiteralBody =>
    case PythonFormat => FormatValidIff(al, contract, text);
    case LiteralReplace =>
      assert contract.available[0] in contract.available;
      assert (contract.available + contract.required)[0] == contract.available[0];
      CountIsPlaces(al, text, contract.available[0], 0);
      ReplaceValidIff(al, contract, text);
  }

  lemma FormatValidIff(al: Alphabet, contract: Contract, text: string)
    requires al.Valid() && contract.kind.PythonFormat?
    ensures Validate(al, contract, text).Ok? <==>
              && text != "" && Parse(text, 0).Ok?
              && var used := Substituted(Parse(text, 0).value);
                 && AllIdentifiers(al, used)
                 && (forall f :: f in used ==> f in contract.available)
                 && (forall f :: f in contract.required ==> multiset(contract.required)[f] <= multiset(used)[f])
    ensures Validate(al, contract, text).Ok? ==> Validate(al, contract, text).value == Substituted(Parse(text, 0).value)
  {
    ScannerIsFormat(al, text, 0);
  }

  lemma {:induction false} OnlyOne(required: seq<string>, field: string)
    requires forall i :: 0 <= i < |required| ==> required[i] == field
    ensures multiset(required)[field] == |required|
  {
    if required != [] {
      var most := required[..|required| - 1];
      OnlyOne(most, field);
      assert required == most + [required[|required| - 1]];
    }
  }

  lemma RequiredIsField(al: Alphabet, contract: Contract)
    requires contract.Valid(al) && contract.kind.LiteralReplace?
    ensures forall i :: 0 <= i < |contract.required| ==> contract.required[i] == contract.available[0]
  {
    forall i | 0 <= i < |contract.required|
      ensures contract.required[i] == contract.available[0]
    {
      assert contract.required[i] in contract.required;
    }
  }

  lemma ReplaceValidIff(al: Alphabet, contract: Contract, text: string)
    requires al.Valid() && contract.Valid(al) && contract.kind.LiteralReplace?
    ensures var field := contract.available[0];
            var n := CountOf(text, Placeholder(field), 0);
            && (Validate(al, contract, text).Ok? <==> text != "" && |contract.required| <= n)
            && (Validate(al, contract, text).Ok? ==> Validate(al, contract, text).value == Repeat(field, n))
  {
    var field := contract.available[0];
    var n := CountOf(text, Placeholder(field), 0);
    RequiredIsField(al, contract);
    OnlyOne(contract.required, field);
    RepeatCounts(field, n);
    if Fields(al, contract, text).Ok? {
      var observed := Fields(al, contract, text).value;
      assert observed == Repeat(field, n);
      assert forall i :: 0 <= i < |observed| ==> observed[i] == field;
      assert contract.available[0] in contract.available;
      assert forall i :: 0 <= i < |contract.required| ==>
          Occurrences(observed, contract.required[i]) == n && Occurrences(contract.required, contract.required[i]) == |contract.required|;
    }
  }

  // ---------------------------------------------------------------- rendering piece by piece

  /** The same text is left from `at` and from `from`. */
  predicate SameLeft(whole: string, at: nat, text: string, from: nat)
    decreases |whole| - at
  {
    at <= |whole| && from <= |text| && |whole| - at == |text| - from &&
    (from < |text| ==> whole[at] == text[from] && SameLeft(whole, at + 1, text, from + 1))
  }

  lemma {:induction false} LeftBehind(head: string, text: string, from: nat)
    requires from <= |text|
    ensures SameLeft(head + text, |head| + from, text, from)
    decreases |text| - from
  {
    if from < |text| {
      LeftBehind(head, text, from + 1);
    }
  }

  lemma {:induction false} LeftAfter(whole: string, at: nat, text: string, from: nat, n: nat)
    requires SameLeft(whole, at, text, from) && n <= |text| - from
    ensures SameLeft(whole, at + n, text, from + n)
    ensures whole[at..at + n] == text[from..from + n]
    decreases n
  {
    if n > 0 {
      LeftAfter(whole, at + 1, text, from + 1, n - 1);
      assert whole[at..at + n] == [whole[at]] + whole[at + 1..at + n];
      assert text[from..from + n] == [text[from]] + text[from + 1..from + n];
    }
  }

  lemma {:induction false} FindShifted(whole: string, at: nat, text: string, from: nat, c: char)
    requires SameLeft(whole, at, text, from)
    ensures Find(whole, c, at) - at == Find(text, c, from) - from
    decreases |text| - from
  {
    if from < |text| && text[from] != c {
      FindShifted(whole, at + 1, text, from + 1, c);
    }
  }

  lemma {:induction false} CloseShifted(whole: string, at: nat, text: string, from: nat, depth: nat)
    requires SameLeft(whole, at, text, from) && depth > 0
    ensures MatchingClose(whole, at, depth) - at == MatchingClose(text, from, depth) - from
    decreases |text| - from
  {
    if from < |text| {
      if text[from] == '{' {
        CloseShifted(whole, at + 1, text, from + 1, depth + 1);
      } else if text[from] != '}' {
        CloseShifted(whole, at + 1, text, from + 1, depth);
      } else if depth > 1 {
        CloseShifted(whole, at + 1, text, from + 1, depth - 1);
      }
    }
  }

  lemma {:induction false} FieldEndShifted(whole: string, at: nat, text: string, from: nat)
    requires SameLeft(whole, at, text, from)
    ensures FieldEnd(whole, at) - at == FieldEnd(text, from) - from
    decreases |text| - from, 1
  {
    if from < |text| {
      if text[from] == ':' || text[from] == '!' {
        CloseShifted(whole, at + 1, text, from + 1, 1);
      } else if text[from] == '[' {
        IndexShifted(whole, at, text, from);
      } else if text[from] != '{' && text[from] != '}' {
        FieldEndShifted(whole, at + 1, text, from + 1);
      }
    }
  }

  lemma {:induction false} IndexShifted(whole: string, at: nat, text: string, from: nat)
    requires SameLeft(whole, at, text, from) && from < |text| && text[from] == '['
    ensures FieldEnd(whole, at) - at == FieldEnd(text, from) - from
    decreases |text| - from, 0
  {
    FindShifted(whole, at, text, from, ']');
    var n := Find(text, ']', from) - from;
    if n < |text| - from {
      LeftAfter(whole, at, text, from, n + 1);
      FieldEndShifted(whole, at + n + 1, text, from + n + 1);
    }
  }

  /** Parsing from an index on does not look at what comes before it. */
  lemma {:induction false} ParseShifted(whole: string, at: nat, text: string, from: nat)
    requires SameLeft(whole, at, text, from)
    ensures Parse(whole, at) == Parse(text, from)
    decreases |text| - from, 1
  {
    if from < |text| {
      if text[from] !in "{}" {
        ParseShifted(whole, at + 1, text, from + 1);
      } else if from + 1 < |text| {
        LeftAfter(whole, at, text, from, 2);
        if text[from + 1] == text[from] {
          ParseShifted(whole, at + 2, text, from + 2);
        } else if text[from] == '{' {
          FieldShifted(whole, at, text, from);
        }
      }
    }
  }

  lemma {:induction false} FieldShifted(whole: string, at: nat, text: string, from: nat)
    requires SameLeft(whole, at, text, from)
    requires from + 1 < |text| && text[from] == '{' && text[from + 1] != '{'
    ensures Parse(whole, at) == Parse(text, from)
    decreases |text| - from, 0
  {
    FieldEndShifted(whole, at + 1, text, from + 1);
    var n := FieldEnd(text, from + 1) - (from + 1);
    if n < |text| - (from + 1) {
      LeftAfter(whole, at + 1, text, from + 1, n);
      ParseShifted(whole, at + 1 + n + 1, text, from + 1 + n + 1);
    }
  }

  lemma {:induction false} FindStays(text: string, tail: string, c: char, from: nat)
    requires from <= |text| && Find(text, c, from) < |text|
    ensures Find(text + tail, c, from) == Find(text, c, from)
    decreases |text| - from
  {
    if text[from] != c {
      FindStays(text, tail, c, from + 1);
    }
  }

  lemma {:induction false} CloseStays(text: string, tail: string, from: nat, depth: nat)
    requires from <= |text| && depth > 0 && MatchingClose(text, from, depth) < |text|
    ensures MatchingClose(text + tail, from, depth) == MatchingClose(text, from, depth)
    decreases |text| - from
  {
    if text[from] == '{' {
      CloseStays(text, tail, from + 1, depth + 1);
    } else if text[from] != '}' {
      CloseStays(text, tail, from + 1, depth);
    } else if depth > 1 {
      CloseStays(text, tail, from + 1, depth - 1);
    }
  }

  lemma {:induction false} FieldEndStays(text: string, tail: string, from: nat)
    requires from <= |text| && FieldEnd(text, from) < |text|
    ensures FieldEnd(text + tail, from) == FieldEnd(text, from)
    decreases |text| - from
  {
    if text[from] !in "{}" {
      if text[from] in ":!" {
        CloseStays(text, tail, from + 1, 1);
      } else if text[from] == '[' {
        FindStays(text, tail, ']', from);
        FieldEndStays(text, tail, Find(text, ']', from) + 1);
      } else {
        FieldEndStays(text, tail, from + 1);
      }
    }
  }

  /** Behind a text that can be split, splitting goes on as if it began there. */
  lemma {:induction false} ParseConcat(text: string, tail: string, index: nat)
    requires index <= |text| && Parse(text, index).Ok?
    ensures Parse(text + tail, index).Ok? <==> Parse(tail, 0).Ok?
    ensures Parse(tail, 0).Ok? ==> Parse(text + tail, index).value == Parse(text, index).value + Parse(tail, 0).value
    decreases |text| - index
  {
    if index == |text| {
      LeftBehind(text, tail, 0);
      ParseShifted(text + tail, |text|, tail, 0);
      assert Parse(tail, 0).Ok? ==> [] + Parse(tail, 0).value == Parse(tail, 0).value;
    } else if text[index] !in "{}" {
      ParseConcat(text, tail, index + 1);
      ConsConcat(Literal(text[index]), Parse(text, index + 1), Parse(tail, 0));
    } else if index + 1 < |text| && text[index + 1] == text[index] {
      ParseConcat(text, tail, index + 2);
      ConsConcat(Literal(text[index]), Parse(text, index + 2), Parse(tail, 0));
    } else {
      var closing := FieldEnd(text, index + 1);
      FieldEndStays(text, tail, index + 1);
      ParseConcat(text, tail, closing + 1);
      assert (text + tail)[index + 1..closing] == text[index + 1..closing];
      ConsConcat(Replacement(text[index + 1..closing]), Parse(text, closing + 1), Parse(tail, 0));
    }
  }

  lemma ConsConcat(piece: Piece, a: Result<seq<Piece>, FormatError>, b: Result<seq<Piece>, FormatError>)
    ensures a.Ok? && b.Ok? ==> Cons(piece, a).value + b.value == [piece] + (a.value + b.value)
  {
  }

  lemma {:induction false} SubstitutedConcat(a: seq<Piece>, b: seq<Piece>)
    ensures Substituted(a + b) == Substituted(a) + Substituted(b)
  {
    if a == [] {
      assert a + b == b;
    } else {
      assert (a + b)[1..] == a[1..] + b;
      SubstitutedConcat(a[1..], b);
    }
  }

  predicate Covered(pieces: seq<Piece>, values: map<string, string>) {
    forall i :: 0 <= i < |pieces| && pieces[i].Replacement? ==> pieces[i].expression in values
  }

  lemma CoveredConcat(a: seq<Piece>, b: seq<Piece>, values: map<string, string>)
    requires Covered(a, values) && Covered(b, values)
    ensures Covered(a + b, values)
  {
  }

  function PieceText(piece: Piece, values: map<string, string>): string
    requires piece.Replacement? ==> piece.expression in values
  {
    match piece case Literal(c) => [c] case Replacement(name) => values[name]
  }

  lemma SubstituteFirst(piece: Piece, rest: seq<Piece>, values: map<string, string>)
    requires Covered([piece] + rest, values) && Covered(rest, values) && (piece.Replacement? ==> piece.expression in values)
    ensures Substitute([piece] + rest, values) == PieceText(piece, values) + Substitute(rest, values)
  {
    assert ([piece] + rest)[1..] == rest;
  }

  lemma {:induction false} SubstituteConcat(a: seq<Piece>, b: seq<Piece>, values: map<string, string>)
    requires Covered(a, values) && Covered(b, values) && Covered(a + b, values)
    ensures Substitute(a + b, values) == Substitute(a, values) + Substitute(b, values)
  {
    if a == [] {
      assert a + b == b;
    } else {
      CoveredConcat(a[1..], b, values);
      SubstituteConcat(a[1..], b, values);
      assert a + b == [a[0]] + (a[1..] + b) && a == [a[0]] + a[1..];
      SubstituteFirst(a[0], a[1..] + b, values);
      SubstituteFirst(a[0], a[1..], values);
    }
  }

  lemma CoversPieces(pieces: seq<Piece>, values: map<string, string>)
    requires forall name :: name in Substituted(pieces) ==> name in values
    ensures Covered(pieces, values)
  {
    forall i | 0 <= i < |pieces| && pieces[i].Replacement?
      ensures pieces[i].expression in values
    {
      SubstitutedCovers(pieces, i);
    }
  }

  /** Rendering goes piece by piece: a template made of two renders to what they render to, one after the other. */
  lemma RenderingConcatenates(a: string, b: string, values: map<string, string>)
    requires Parse(a, 0).Ok? && forall name :: name in Substituted(Parse(a, 0).value) ==> name in values
    requires Parse(b, 0).Ok? && forall name :: name in Substituted(Parse(b, 0).value) ==> name in values
    ensures Parse(a + b, 0).Ok?
    ensures Substituted(Parse(a + b, 0).value) == Substituted(Parse(a, 0).value) + Substituted(Parse(b, 0).value)
    ensures FormatMap(a + b, values) == FormatMap(a, values) + FormatMap(b, values)
  {
    ParseConcat(a, b, 0);
    CoversPieces(Parse(a, 0).value, values);
    CoversPieces(Parse(b, 0).value, values);
    SubstitutedConcat(Parse(a, 0).value, Parse(b, 0).value);
    CoveredConcat(Parse(a, 0).value, Parse(b, 0).value, values);
    SubstituteConcat(Parse(a, 0).value, Parse(b, 0).value, values);
  }

  /** The pieces themselves: a placeholder renders to its value, and any other character to itself; a brace is
      written twice. */
  lemma RenderingOfPieces(al: Alphabet, field: string, c: char, values: map<string, string>)
    requires al.Valid() && IsIdentifier(al, field) && field in values
    ensures Parse(Placeholder(field), 0) == Ok([Replacement(field)])
    ensures Substituted([Replacement(field)]) == [field] && FormatMap(Placeholder(field), values) == values[field]
    ensures var written := if c in "{}" then [c, c] else [c];
            && Parse(written, 0) == Ok([Literal(c)]) && Substituted([Literal(c)]) == []
            && FormatMap(written, values) == [c]
  {
    var text := Placeholder(field);
    assert text[1..|text| - 1] == field;
    IdentifierIsPlain(al, text, 1, |text| - 1);
    PlainFieldEnd(text, 1, |text| - 1);
    assert text[1] == field[0] && field[0] in al.start + al.more;
    assert Parse(text, |text|) == Ok([]);
    assert [Replacement(field)] + [] == [Replacement(field)];
    assert Parse(text, 0) == Cons(Replacement(field), Parse(text, |text|));
    SubstituteOne(Replacement(field), values);
    SubstituteOne(Literal(c), values);
    var written := if c in "{}" then [c, c] else [c];
    assert Parse(written, |written|) == Ok([]);
    assert [Literal(c)] + [] == [Literal(c)];
    assert Parse(written, 0) == Cons(Literal(c), Parse(written, |written|));
  }

  lemma SubstituteOne(piece: Piece, values: map<string, string>)
    requires piece.Replacement? ==> piece.expression in values
    ensures Substituted([piece]) == if piece.Replacement? then [piece.expression] else []
    ensures Substitute([piece], values) == if piece.Replacement? then values[piece.expression] else [piece.c]
  {
    assert [piece][1..] == [];
    assert Substitute([], values) == "";
  }
}
