/**
  The concrete syntax of JSON text, as in RFC 8259 sections 2 to 7.

  A value keeps the whitespace around its tokens and the escapes inside its
  strings, so that Print gives every text of the grammar. Scalars (numbers and the
  three literal names) are any run of characters that are neither whitespace nor
  structural, and a backslash may escape any character: both are supersets of what
  RFC 8259 allows.
*/
module Json {
  datatype Json =
    | Scalar(text: string)
    | Quoted(body: string)
    | EmptyArray(blank: string)
    | Array(elems: Elems)
    | EmptyObject(blank: string)
    | Object(fields: Fields)

  datatype Elem = Elem(before: string, value: Json, after: string)

  datatype Elems = LastElem(elem: Elem) | MoreElems(elem: Elem, rest: Elems)

  datatype Field = Field(before: string, key: string, afterKey: string, elem: Elem)

  datatype Fields = LastField(field: Field) | MoreFields(field: Field, rest: Fields)

  predicate IsSpace(c: char) {
    c == ' ' || c == '\t' || c == '\n' || c == '\r'
  }

  predicate IsStructural(c: char) {
    c == '[' || c == ']' || c == '{' || c == '}' || c == ',' || c == ':' || c == '"'
  }

  predicate Blank(s: string) {
    forall i :: 0 <= i < |s| ==> IsSpace(s[i])
  }

  /** The inside of a string: a quote appears only after a backslash. */
  predicate StringBody(s: string) {
    if s == "" then true
    else if s[0] == '\\' then |s| >= 2 && StringBody(s[2..])
    else s[0] != '"' && StringBody(s[1..])
  }

  predicate WellFormed(v: Json) {
    match v
    case Scalar(text) => text != "" && forall i :: 0 <= i < |text| ==> !IsSpace(text[i]) && !IsStructural(text[i])
    case Quoted(body) => StringBody(body)
    case EmptyArray(blank) => Blank(blank)
    case Array(elems) => WellFormedElems(elems)
    case EmptyObject(blank) => Blank(blank)
    case Object(fields) => WellFormedFields(fields)
  }

  predicate WellFormedElem(e: Elem) {
    Blank(e.before) && WellFormed(e.value) && Blank(e.after)
  }

  predicate WellFormedElems(es: Elems) {
    WellFormedElem(es.elem) && (es.MoreElems? ==> WellFormedElems(es.rest))
  }

  predicate WellFormedFields(fs: Fields) {
    && Blank(fs.field.before) && StringBody(fs.field.key) && Blank(fs.field.afterKey)
    && WellFormedElem(fs.field.elem)
    && (fs.MoreFields? ==> WellFormedFields(fs.rest))
  }

  function Print(v: Json): string {
    match v
    case Scalar(text) => text
    case Quoted(body) => PrintQuoted(body)
    case EmptyArray(blank) => "[" + (blank + "]")
    case Array(elems) => "[" + (PrintElems(elems) + "]")
    case EmptyObject(blank) => "{" + (blank + "}")
    case Object(fields) => "{" + (PrintFields(fields) + "}")
  }

  function PrintQuoted(body: string): string {
    "\"" + (body + "\"")
  }

  function PrintElem(e: Elem): string {
    e.before + (Print(e.value) + e.after)
  }

  function PrintElems(es: Elems): string {
    match es
    case LastElem(elem) => PrintElem(elem)
    case MoreElems(elem, rest) => PrintElem(elem) + ("," + PrintElems(rest))
  }

  function PrintField(f: Field): string {
    f.before + (PrintQuoted(f.key) + (f.afterKey + (":" + PrintElem(f.elem))))
  }

  function PrintFields(fs: Fields): string {
    match fs
    case LastField(field) => PrintField(field)
    case MoreFields(field, rest) => PrintField(field) + ("," + PrintFields(rest))
  }

  /** The printed elements of an array, in order and without surrounding whitespace. */
  function Values(es: Elems): seq<string> {
    match es
    case LastElem(elem) => [Print(elem.value)]
    case MoreElems(elem, rest) => [Print(elem.value)] + Values(rest)
  }

  function ArrayValues(v: Json): seq<string> {
    match v
    case Array(elems) => Values(elems)
    case _ => []
  }

  /** The keys of an object and its printed values, in order. */
  function Entries(fs: Fields): seq<(string, string)> {
    match fs
    case LastField(field) => [(field.key, Print(field.elem.value))]
    case MoreFields(field, rest) => [(field.key, Print(field.elem.value))] + Entries(rest)
  }

  function ObjectEntries(v: Json): seq<(string, string)> {
    match v
    case Object(fields) => Entries(fields)
    case _ => []
  }

  predicate SomeKeyHasQuote(fs: Fields) {
    HasQuote(fs.field.key) || (fs.MoreFields? && SomeKeyHasQuote(fs.rest))
  }

  predicate HasQuote(s: string) {
    exists i :: 0 <= i < |s| && s[i] == '"'
  }
}

/** The in-place scanner of util/json.cpp. */
module JsonScanner {
  import opened Common
  import opened Json

  // The positions the scanner's loops reach, as functions of the text.

  function SkipSpace(t: string, pos: nat): (r: nat)
    ensures pos <= r && (pos <= |t| ==> r <= |t|) && (r < |t| ==> !IsSpace(t[r]))
    decreases |t| - pos
  {
    if pos < |t| && IsSpace(t[pos]) then SkipSpace(t, pos + 1) else pos
  }

  /** From inside a string to just past its closing quote; past the end of the text when there is none. */
  function SkipQuoted(t: string, pos: nat): (r: nat)
    ensures r > pos
    decreases |t| - pos
  {
    if pos < |t| && t[pos] != '"' then SkipQuoted(t, pos + if t[pos] == '\\' then 2 else 1) else pos + 1
  }

  function SkipNested(t: string, pos: nat, open: char, close: char, depth: nat): (r: nat)
    ensures r >= pos
    decreases |t| - pos
  {
    if pos >= |t| || depth == 0 then pos
    else if t[pos] == '"' then SkipNested(t, SkipQuoted(t, pos + 1), open, close, depth)
    else if t[pos] == open then SkipNested(t, pos + 1, open, close, depth + 1)
    else if t[pos] == close then SkipNested(t, pos + 1, open, close, depth - 1)
    else SkipNested(t, pos + 1, open, close, depth)
  }

  predicate EndsScalar(c: char) {
    c == ',' || c == '}' || c == ']' || IsSpace(c)
  }

  function SkipScalar(t: string, pos: nat): (r: nat)
    ensures r >= pos && (pos < |t| && !EndsScalar(t[pos]) ==> r > pos)
    decreases |t| - pos
  {
    if pos < |t| && !EndsScalar(t[pos]) then SkipScalar(t, pos + 1) else pos
  }

  function CloserOf(open: char): char {
    if open == '{' then '}' else ']'
  }

  /** Where SkipValue stops when the value starts right at pos. */
  function ValueEnd(t: string, pos: nat): (r: nat)
    ensures r >= pos
  {
    if pos >= |t| then pos
    else if t[pos] == '"' then SkipQuoted(t, pos + 1)
    else if t[pos] == '{' || t[pos] == '[' then SkipNested(t, pos + 1, t[pos], CloserOf(t[pos]), 1)
    else SkipScalar(t, pos)
  }

  function AfterComma(t: string, pos: nat): (r: nat)
    ensures r >= pos
  {
    if pos < |t| && t[pos] == ',' then pos + 1 else pos
  }

  /** The position after the element at pos, its trailing whitespace and one comma. */
  function NextElement(t: string, pos: nat): (r: nat)
    ensures r >= pos
  {
    AfterComma(t, SkipSpace(t, ValueEnd(t, pos)))
  }

  /** `substr` clamps its end to the text. */
  function Cut(t: string, from: nat, to: nat): string
    requires from <= |t| && from <= to
  {
    t[from..if to <= |t| then to else |t|]
  }

  // The scanners.

  method SkipWhitespace(t: string, start: nat) returns (pos: nat)
    ensures pos == SkipSpace(t, start)
  {
    pos := start;
    while pos < |t| && IsSpace(t[pos])
      invariant SkipSpace(t, pos) == SkipSpace(t, start)
      decreases |t| - pos
    {
      pos := pos + 1;
    }
  }

  method SkipValue(t: string, start: nat) returns (pos: nat)
    ensures pos == ValueEnd(t, SkipSpace(t, start))
    decreases |t| - start
  {
    pos := SkipWhitespace(t, start);
    ghost var first := pos;
    if pos >= |t| {
      return;
    }
    if t[pos] == '"' {
      pos := pos + 1;
      while pos < |t| && t[pos] != '"'
        invariant SkipQuoted(t, pos) == SkipQuoted(t, first + 1)
        decreases |t| - pos
      {
        if t[pos] == '\\' {
          pos := pos + 1;
        }
        pos := pos + 1;
      }
      return pos + 1;
    }
    if t[pos] == '{' || t[pos] == '[' {
      var open := t[pos];
      var close := CloserOf(open);
      var depth: nat := 1;
      pos := pos + 1;
      while pos < |t| && depth > 0
        invariant pos > start
        invariant SkipNested(t, pos, open, close, depth) == SkipNested(t, first + 1, open, close, 1)
        decreases |t| - pos
      {
        if t[pos] == '"' {
          pos := SkipValue(t, pos);
          continue;
        }
        if t[pos] == open {
          depth := depth + 1;
        } else if t[pos] == close {
          depth := depth - 1;
        }
        pos := pos + 1;
      }
      return;
    }
    while pos < |t| && t[pos] != ',' && t[pos] != '}' && t[pos] != ']' && !IsSpace(t[pos])
      invariant SkipScalar(t, pos) == SkipScalar(t, first)
      decreases |t| - pos
    {
      pos := pos + 1;
    }
  }

  datatype Round = End | Element(text: string, next: nat)

  /** What one round of ForEachElement reports, and where it stands after. */
  function RoundAt(t: string, pos: nat): (r: Round)
    ensures r.Element? ==> pos < |t| && pos <= r.next
  {
    var p := SkipSpace(t, pos);
    if p >= |t| || t[p] == ']' then End
    else Element(Cut(t, p, ValueEnd(t, p)), NextElement(t, p))
  }

  /** The elements ForEachElement reports from pos on, up to a round that does not move. */
  function ElementsFrom(t: string, pos: nat): seq<string>
    decreases |t| - pos
  {
    match RoundAt(t, pos)
    case Element(text, next) => if next == pos then [] else [text] + ElementsFrom(t, next)
    case End => []
  }

  /** The walk from pos comes to a round that does not move, and so never ends. */
  predicate Diverges(t: string, pos: nat)
    decreases |t| - pos
  {
    match RoundAt(t, pos)
    case Element(_, next) => next == pos || Diverges(t, next)
    case End => false
  }

  lemma Regroup<T>(a: seq<T>, x: T, b: seq<T>)
    ensures (a + [x]) + b == a + ([x] + b)
  {
  }

  /** Past the value at start, its trailing whitespace and one comma. */
  method SkipElement(t: string, start: nat) returns (end: nat, next: nat)
    requires start < |t| ==> !IsSpace(t[start])
    ensures end == ValueEnd(t, start) && next == NextElement(t, start)
  {
    end := SkipValue(t, start);
    next := SkipWhitespace(t, end);
    if next < |t| && t[next] == ',' {
      next := next + 1;
    }
  }

  method ReadElement(t: string, pos: nat) returns (r: Round)
    ensures r == RoundAt(t, pos)
  {
    var start := SkipWhitespace(t, pos);
    if start >= |t| || t[start] == ']' {
      return End;
    }
    var end, next := SkipElement(t, start);
    return Element(Cut(t, start, end), next);
  }

  /**
    ForEachElement, with the calls of its action collected in order. Where the loop
    of the source would report the same empty element for ever, the model stops and
    says so.
  */
  method ForEachElement(t: string) returns (visited: seq<string>, diverged: bool)
    ensures visited == ElementsFrom(t, 1) && diverged == Diverges(t, 1)
  {
    var pos: nat := 1;
    visited := [];
    while true
      invariant visited + ElementsFrom(t, pos) == ElementsFrom(t, 1)
      invariant Diverges(t, pos) == Diverges(t, 1)
      decreases |t| - pos
    {
      var round := ReadElement(t, pos);
      if round.End? {
        return visited, false;
      }
      if round.next == pos {
        return visited, true;
      }
      Regroup(visited, round.text, ElementsFrom(t, round.next));
      visited := visited + [round.text];
      pos := round.next;
    }
  }

  /** The round that finds the element: `index` rounds are passed over first. */
  function Found(t: string, pos: nat, index: nat): Option<string>
    decreases index
  {
    match RoundAt(t, pos)
    case End => None
    case Element(text, next) => if index == 0 then Some(text) else Found(t, next, index - 1)
  }

  method FindElementAt(t: string, index: nat) returns (r: Option<string>)
    ensures r == Found(t, 1, index)
  {
    var pos: nat := 1;
    for i := 0 to index
      invariant Found(t, pos, index - i) == Found(t, 1, index)
    {
      var round := ReadElement(t, pos);
      if round.End? {
        return None;
      }
      pos := round.next;
    }
    var round := ReadElement(t, pos);
    return if round.End? then None else Some(round.text);
  }

  /** FindElement, against the elements that ForEachElement reports. */
  method FindElement(t: string, index: nat) returns (r: Option<string>)
    ensures t == "" || t[0] != '[' ==> r == None
    ensures t != "" && t[0] == '[' && index < |ElementsFrom(t, 1)| ==> r == Some(ElementsFrom(t, 1)[index])
    ensures t != "" && t[0] == '[' && index >= |ElementsFrom(t, 1)| ==> r == if Diverges(t, 1) then Some("") else None
  {
    if t == "" || t[0] != '[' {
      return None;
    }
    r := FindElementAt(t, index);
    FoundIsVisited(t, 1, index);
  }

  function FindQuote(t: string, pos: nat): (r: Option<nat>)
    ensures r.Some? ==> pos <= r.value < |t|
    decreases |t| - pos
  {
    if pos >= |t| then None else if t[pos] == '"' then Some(pos) else FindQuote(t, pos + 1)
  }

  method Find(t: string, start: nat) returns (r: Option<nat>)
    ensures r == FindQuote(t, start)
  {
    var pos := start;
    while pos < |t|
      invariant FindQuote(t, pos) == FindQuote(t, start)
      decreases |t| - pos
    {
      if t[pos] == '"' {
        return Some(pos);
      }
      pos := pos + 1;
    }
    return None;
  }

  /** The colon after the key that starts at the quote p, with the end of the key, if both are there. */
  function KeyAt(t: string, p: nat): (r: Option<(nat, nat)>)
    requires p < |t|
    ensures r.Some? ==> p + 1 <= r.value.0 < r.value.1 < |t|
  {
    match FindQuote(t, p + 1)
    case None => None
    case Some(end) =>
      var colon := SkipSpace(t, end + 1);
      if colon >= |t| || t[colon] != ':' then None else Some((end, colon))
  }

  datatype Entry = NoEntry | Entry(key: string, value: string, next: nat)

  /** What one round of ForEachField reports, and where it stands after. */
  function EntryAt(t: string, pos: nat): (r: Entry)
    ensures r.Entry? ==> pos < r.next && pos < |t|
  {
    var p := SkipSpace(t, pos);
    if p >= |t| || t[p] != '"' || KeyAt(t, p).None? then NoEntry
    else
      var (end, colon) := KeyAt(t, p).value;
      var start := SkipSpace(t, colon + 1);
      Entry(t[p + 1..end], Cut(t, start, ValueEnd(t, start)), NextElement(t, start))
  }

  function EntriesFrom(t: string, pos: nat): seq<(string, string)>
    decreases |t| - pos
  {
    match EntryAt(t, pos)
    case NoEntry => []
    case Entry(key, value, next) => [(key, value)] + EntriesFrom(t, next)
  }

  /** The end of the key that starts at the quote p, and the colon after it. */
  method ScanKey(t: string, p: nat) returns (r: Option<(nat, nat)>)
    requires p < |t|
    ensures r == KeyAt(t, p)
  {
    var end := Find(t, p + 1);
    if end.None? {
      return None;
    }
    var colon := SkipWhitespace(t, end.value + 1);
    if colon >= |t| || t[colon] != ':' {
      return None;
    }
    return Some((end.value, colon));
  }

  method ReadEntry(t: string, pos: nat) returns (r: Entry)
    ensures r == EntryAt(t, pos)
  {
    var p := SkipWhitespace(t, pos);
    if p >= |t| || t[p] != '"' {
      return NoEntry;
    }
    var key := ScanKey(t, p);
    if key.None? {
      return NoEntry;
    }
    var start := SkipWhitespace(t, key.value.1 + 1);
    var end, next := SkipElement(t, start);
    return Entry(t[p + 1..key.value.0], Cut(t, start, end), next);
  }

  /** ForEachField, with the calls of its action collected in order; it ends on every text. */
  method ForEachField(t: string) returns (visited: seq<(string, string)>)
    ensures visited == if t == "" || t[0] != '{' then [] else EntriesFrom(t, 1)
  {
    visited := [];
    if t == "" || t[0] != '{' {
      return;
    }
    var pos: nat := 1;
    while true
      invariant visited + EntriesFrom(t, pos) == EntriesFrom(t, 1)
      decreases |t| - pos
    {
      var entry := ReadEntry(t, pos);
      if entry.NoEntry? {
        return;
      }
      Regroup(visited, (entry.key, entry.value), EntriesFrom(t, entry.next));
      visited := visited + [(entry.key, entry.value)];
      pos := entry.next;
    }
  }

  /** FindElement and ForEachElement agree on every text; past a walk that never ends there are only empty elements. */
  lemma {:induction false} FoundIsVisited(t: string, pos: nat, index: nat)
    ensures index < |ElementsFrom(t, pos)| ==> Found(t, pos, index) == Some(ElementsFrom(t, pos)[index])
    ensures index >= |ElementsFrom(t, pos)| ==> Found(t, pos, index) == if Diverges(t, pos) then Some("") else None
    decreases index
  {
    hide RoundAt;
    match RoundAt(t, pos)
    case Element(text, next) =>
      if next == pos {
        StuckReportsNothing(t, pos);
      }
      if index > 0 {
        FoundIsVisited(t, next, index - 1);
      }
    case End =>
  }

  lemma StuckReportsNothing(t: string, pos: nat)
    requires RoundAt(t, pos).Element? && RoundAt(t, pos).next == pos
    ensures RoundAt(t, pos).text == ""
  {
    StuckOnlyAtBrace(t, pos);
  }

  /** A walk reports at most one element per character. */
  lemma {:induction false} WalkIsShort(t: string, pos: nat)
    ensures |ElementsFrom(t, pos)| <= if pos < |t| then |t| - pos else 0
    decreases |t| - pos
  {
    hide RoundAt;
    match RoundAt(t, pos)
    case Element(text, next) =>
      if next != pos {
        WalkIsShort(t, next);
      }
    case End =>
  }

  /** ForEachElement never ends exactly when FindElement still finds something at the index of the text's length. */
  lemma EndlessIff(t: string)
    ensures Diverges(t, 1) <==> Found(t, 1, |t|).Some?
  {
    WalkIsShort(t, 1);
    FoundIsVisited(t, 1, |t|);
  }

  /** There are such texts. */
  lemma EndlessText()
    ensures Diverges("[}", 1)
  {
    StuckOnlyAtBrace("[}", 1);
  }

  /** A round of ForEachElement does not move exactly when it stands on a '}'. */
  lemma StuckOnlyAtBrace(t: string, pos: nat)
    ensures RoundAt(t, pos).Element? && RoundAt(t, pos).next == pos <==> pos < |t| && t[pos] == '}'
  {
    var p := SkipSpace(t, pos);
    if p < |t| && t[p] != ']' {
      EmptyOnlyAtDelimiter(t, p);
    }
  }

  lemma EmptyOnlyAtDelimiter(t: string, p: nat)
    requires p < |t|
    ensures ValueEnd(t, p) == p <==> EndsScalar(t[p])
  {
    if t[p] == '"' {
      assert SkipQuoted(t, p + 1) > p;
    } else if t[p] == '{' || t[p] == '[' {
      assert SkipNested(t, p + 1, t[p], CloserOf(t[p]), 1) > p;
    }
  }
}

/** The scanner on the text of the grammar. */
module JsonExactness {
  import opened Common
  import opened Json
  import opened JsonScanner

  lemma AtIndex(t: string, pos: nat, part: string, i: nat)
    requires At(t, pos, part) && i < |part|
    ensures pos + i < |t| && t[pos + i] == part[i]
  {
    assert t[pos..pos + |part|][i] == part[i];
  }

  lemma AtTail(t: string, pos: nat, part: string, k: nat)
    requires At(t, pos, part) && k <= |part|
    ensures At(t, pos + k, part[k..])
  {
    assert part == part[..k] + part[k..];
    AtSplit(t, pos, part[..k], part[k..]);
  }

  // Whitespace, strings and scalars.

  lemma {:induction false} SpaceSkipped(t: string, pos: nat, blank: string)
    requires At(t, pos, blank) && Blank(blank)
    ensures SkipSpace(t, pos) == SkipSpace(t, pos + |blank|)
    decreases |blank|
  {
    if blank != "" {
      AtIndex(t, pos, blank, 0);
      AtTail(t, pos, blank, 1);
      SpaceSkipped(t, pos + 1, blank[1..]);
    }
  }

  lemma {:induction false} QuotedSkipped(t: string, pos: nat, body: string)
    requires At(t, pos, body + "\"") && StringBody(body)
    ensures SkipQuoted(t, pos) == pos + |body| + 1
    decreases |body|
  {
    AtIndex(t, pos, body + "\"", 0);
    if body != "" {
      var k := if body[0] == '\\' then 2 else 1;
      AtTail(t, pos, body + "\"", k);
      assert (body + "\"")[k..] == body[k..] + "\"";
      QuotedSkipped(t, pos + k, body[k..]);
    }
  }

  lemma {:induction false} ScalarSkipped(t: string, pos: nat, text: string)
    requires At(t, pos, text)
    requires forall i :: 0 <= i < |text| ==> !EndsScalar(text[i])
    requires pos + |text| < |t| ==> EndsScalar(t[pos + |text|])
    ensures SkipScalar(t, pos) == pos + |text|
    decreases |text|
  {
    if text != "" {
      AtIndex(t, pos, text, 0);
      AtTail(t, pos, text, 1);
      ScalarSkipped(t, pos + 1, text[1..]);
    }
  }

  // Counting one kind of bracket.

  function Scan(t: string, pos: nat, open: char, depth: nat): nat {
    SkipNested(t, pos, open, CloserOf(open), depth)
  }

  predicate Bracket(open: char) {
    open == '{' || open == '['
  }

  /** From either position the bracket scan ends alike, whichever bracket it counts and at whatever depth. */
  ghost predicate Crosses(t: string, from: nat, to: nat) {
    forall open, depth: nat :: Bracket(open) && depth > 0 ==> Scan(t, from, open, depth) == Scan(t, to, open, depth)
  }

  lemma CrossTwo(t: string, a: nat, b: nat, c: nat)
    requires Crosses(t, a, b) && Crosses(t, b, c)
    ensures Crosses(t, a, c)
  {
    forall open, depth: nat | Bracket(open) && depth > 0
      ensures Scan(t, a, open, depth) == Scan(t, c, open, depth)
    {
      assert Scan(t, a, open, depth) == Scan(t, b, open, depth);
    }
  }

  lemma ScanStep(t: string, pos: nat, open: char, depth: nat)
    requires pos < |t| && Bracket(open) && depth > 0
    ensures t[pos] == '"' ==> Scan(t, pos, open, depth) == Scan(t, SkipQuoted(t, pos + 1), open, depth)
    ensures t[pos] == open ==> Scan(t, pos, open, depth) == Scan(t, pos + 1, open, depth + 1)
    ensures t[pos] == CloserOf(open) ==> Scan(t, pos, open, depth) == Scan(t, pos + 1, open, depth - 1)
    ensures t[pos] != '"' && t[pos] != open && t[pos] != CloserOf(open) ==> Scan(t, pos, open, depth) == Scan(t, pos + 1, open, depth)
  {
  }

  lemma PlainStep(t: string, pos: nat)
    requires pos < |t| && t[pos] != '"' && t[pos] != '[' && t[pos] != ']' && t[pos] != '{' && t[pos] != '}'
    ensures Crosses(t, pos, pos + 1)
  {
    forall open, depth: nat | Bracket(open) && depth > 0
      ensures Scan(t, pos, open, depth) == Scan(t, pos + 1, open, depth)
    {
      ScanStep(t, pos, open, depth);
    }
  }

  predicate Plain(s: string) {
    forall i :: 0 <= i < |s| ==> s[i] != '"' && s[i] != '[' && s[i] != ']' && s[i] != '{' && s[i] != '}'
  }

  lemma {:induction false} PlainCrossed(t: string, pos: nat, s: string)
    requires At(t, pos, s) && Plain(s)
    ensures Crosses(t, pos, pos + |s|)
    decreases |s|
  {
    if s != "" {
      AtIndex(t, pos, s, 0);
      AtTail(t, pos, s, 1);
      PlainStep(t, pos);
      PlainCrossed(t, pos + 1, s[1..]);
      CrossTwo(t, pos, pos + 1, pos + |s|);
    }
  }

  lemma QuotedParts(t: string, p: nat, body: string)
    requires At(t, p, PrintQuoted(body))
    ensures t[p] == '"' && At(t, p + 1, body) && t[p + 1 + |body|] == '"' && At(t, p + 1, body + "\"")
  {
    AtSplit(t, p, "\"", body + "\"");
    AtSplit(t, p + 1, body, "\"");
    AtIndex(t, p, "\"", 0);
    AtIndex(t, p + 1 + |body|, "\"", 0);
  }

  lemma JumpCrossed(t: string, pos: nat, to: nat)
    requires pos < |t| && t[pos] == '"' && SkipQuoted(t, pos + 1) == to
    ensures Crosses(t, pos, to)
  {
    forall open, depth: nat | Bracket(open) && depth > 0
      ensures Scan(t, pos, open, depth) == Scan(t, to, open, depth)
    {
      ScanStep(t, pos, open, depth);
    }
  }

  lemma QuotedCrossed(t: string, pos: nat, body: string)
    requires At(t, pos, PrintQuoted(body)) && StringBody(body)
    ensures Crosses(t, pos, pos + |body| + 2)
  {
    hide Crosses, At, StringBody;
    QuotedParts(t, pos, body);
    QuotedSkipped(t, pos + 1, body);
    JumpCrossed(t, pos, pos + |body| + 2);
  }

  /** A matching pair of brackets around text that is crossed is crossed itself. */
  lemma PairCrossed(t: string, pos: nat, to: nat, o: char)
    requires Bracket(o) && pos < to < |t| && t[pos] == o && t[to] == CloserOf(o)
    requires Crosses(t, pos + 1, to)
    ensures Crosses(t, pos, to + 1)
  {
    forall open, depth: nat | Bracket(open) && depth > 0
      ensures Scan(t, pos, open, depth) == Scan(t, to + 1, open, depth)
    {
      var inner := if open == o then depth + 1 else depth;
      ScanStep(t, pos, open, depth);
      assert Scan(t, pos + 1, open, inner) == Scan(t, to, open, inner);
      ScanStep(t, to, open, inner);
    }
  }

  predicate Bracketed(v: Json) {
    v.EmptyArray? || v.Array? || v.EmptyObject? || v.Object?
  }

  /** What Print puts between the outer brackets. */
  function Inside(v: Json): string
    requires Bracketed(v)
  {
    match v
    case EmptyArray(blank) => blank
    case Array(elems) => PrintElems(elems)
    case EmptyObject(blank) => blank
    case Object(fields) => PrintFields(fields)
  }

  function OpenerOf(v: Json): char {
    if v.EmptyArray? || v.Array? then '[' else '{'
  }

  lemma BracketsAt(t: string, pos: nat, v: Json)
    requires Bracketed(v) && At(t, pos, Print(v))
    ensures |Print(v)| == |Inside(v)| + 2
    ensures pos + 1 + |Inside(v)| < |t|
    ensures t[pos] == OpenerOf(v) && At(t, pos + 1, Inside(v)) && t[pos + 1 + |Inside(v)|] == CloserOf(OpenerOf(v))
  {
    hide At;
    var o, c := [OpenerOf(v)], [CloserOf(OpenerOf(v))];
    assert Print(v) == o + (Inside(v) + c);
    AtSplit(t, pos, o, Inside(v) + c);
    AtSplit(t, pos + 1, Inside(v), c);
    AtIndex(t, pos, o, 0);
    AtIndex(t, pos + 1 + |Inside(v)|, c, 0);
  }

  /** A whole value leaves the depth as it was. */
  lemma {:induction false} ValueCrossed(t: string, pos: nat, v: Json)
    requires At(t, pos, Print(v)) && WellFormed(v)
    ensures Crosses(t, pos, pos + |Print(v)|)
    decreases v, 1
  {
    hide Crosses, At;
    match v
    case Scalar(text) => PlainCrossed(t, pos, text);
    case Quoted(body) => QuotedCrossed(t, pos, body);
    case _ =>
      BracketsAt(t, pos, v);
      InsideCrossed(t, pos + 1, v);
      PairCrossed(t, pos, pos + 1 + |Inside(v)|, OpenerOf(v));
  }

  lemma {:induction false} InsideCrossed(t: string, pos: nat, v: Json)
    requires Bracketed(v) && At(t, pos, Inside(v)) && WellFormed(v)
    ensures Crosses(t, pos, pos + |Inside(v)|)
    decreases v, 0
  {
    hide Crosses, At;
    match v
    case EmptyArray(blank) => PlainCrossed(t, pos, blank);
    case Array(elems) => ElemsCrossed(t, pos, elems);
    case EmptyObject(blank) => PlainCrossed(t, pos, blank);
    case Object(fields) => FieldsCrossed(t, pos, fields);
  }

  lemma ElemParts(t: string, pos: nat, e: Elem)
    requires At(t, pos, PrintElem(e))
    ensures |PrintElem(e)| == |e.before| + |Print(e.value)| + |e.after|
    ensures At(t, pos, e.before) && At(t, pos + |e.before|, Print(e.value))
    ensures At(t, pos + |e.before| + |Print(e.value)|, e.after)
  {
    AtSplit(t, pos, e.before, Print(e.value) + e.after);
    AtSplit(t, pos + |e.before|, Print(e.value), e.after);
  }

  lemma {:induction false} ElemCrossed(t: string, pos: nat, e: Elem)
    requires At(t, pos, PrintElem(e)) && WellFormedElem(e)
    ensures Crosses(t, pos, pos + |PrintElem(e)|)
    decreases e
  {
    hide Crosses, At;
    ElemParts(t, pos, e);
    var p := pos + |e.before|;
    var q := p + |Print(e.value)|;
    PlainCrossed(t, pos, e.before);
    ValueCrossed(t, p, e.value);
    CrossTwo(t, pos, p, q);
    PlainCrossed(t, q, e.after);
    CrossTwo(t, pos, q, q + |e.after|);
  }

  lemma JoinedParts(t: string, pos: nat, first: string, rest: string)
    requires At(t, pos, first + ("," + rest))
    ensures At(t, pos, first) && t[pos + |first|] == ',' && At(t, pos + |first| + 1, rest)
  {
    AtSplit(t, pos, first, "," + rest);
    AtSplit(t, pos + |first|, ",", rest);
    AtIndex(t, pos + |first|, ",", 0);
  }

  lemma JoinedCrossed(t: string, pos: nat, p: nat, q: nat)
    requires Crosses(t, pos, p) && p < |t| && t[p] == ',' && Crosses(t, p + 1, q)
    ensures Crosses(t, pos, q)
  {
    PlainStep(t, p);
    CrossTwo(t, pos, p, p + 1);
    CrossTwo(t, pos, p + 1, q);
  }

  lemma {:induction false} ElemsCrossed(t: string, pos: nat, es: Elems)
    requires At(t, pos, PrintElems(es)) && WellFormedElems(es)
    ensures Crosses(t, pos, pos + |PrintElems(es)|)
    decreases es
  {
    hide Crosses, At, PrintElem;
    match es
    case LastElem(elem) => ElemCrossed(t, pos, elem);
    case MoreElems(elem, rest) =>
      var next := pos + |PrintElem(elem)|;
      JoinedParts(t, pos, PrintElem(elem), PrintElems(rest));
      ElemCrossed(t, pos, elem);
      ElemsCrossed(t, next + 1, rest);
      JoinedCrossed(t, pos, next, next + 1 + |PrintElems(rest)|);
  }

  lemma FieldParts(t: string, pos: nat, f: Field)
    requires At(t, pos, PrintField(f))
    ensures |PrintField(f)| == |f.before| + |f.key| + 2 + |f.afterKey| + 1 + |PrintElem(f.elem)|
    ensures var q := pos + |f.before|;
            var k := q + |f.key| + 2;
            var c := k + |f.afterKey|;
            && At(t, pos, f.before) && At(t, q, PrintQuoted(f.key)) && At(t, k, f.afterKey)
            && c < |t| && t[c] == ':' && At(t, c + 1, PrintElem(f.elem))
  {
    hide At;
    var tail := ":" + PrintElem(f.elem);
    var q := pos + |f.before|;
    AtSplit(t, pos, f.before, PrintQuoted(f.key) + (f.afterKey + tail));
    AtSplit(t, q, PrintQuoted(f.key), f.afterKey + tail);
    AtSplit(t, q + |f.key| + 2, f.afterKey, tail);
    AtSplit(t, q + |f.key| + 2 + |f.afterKey|, ":", PrintElem(f.elem));
    AtIndex(t, q + |f.key| + 2 + |f.afterKey|, ":", 0);
  }

  lemma KeyCrossed(t: string, pos: nat, f: Field)
    requires At(t, pos, PrintField(f)) && Blank(f.before) && StringBody(f.key) && Blank(f.afterKey)
    ensures Crosses(t, pos, pos + |f.before| + |f.key| + 2 + |f.afterKey| + 1)
  {
    hide Crosses, At;
    FieldParts(t, pos, f);
    var q := pos + |f.before|;
    var k := q + |f.key| + 2;
    var c := k + |f.afterKey|;
    PlainCrossed(t, pos, f.before);
    QuotedCrossed(t, q, f.key);
    CrossTwo(t, pos, q, k);
    PlainCrossed(t, k, f.afterKey);
    CrossTwo(t, pos, k, c);
    PlainStep(t, c);
    CrossTwo(t, pos, c, c + 1);
  }

  lemma {:induction false} FieldCrossed(t: string, pos: nat, f: Field)
    requires At(t, pos, PrintField(f))
    requires Blank(f.before) && StringBody(f.key) && Blank(f.afterKey) && WellFormedElem(f.elem)
    ensures Crosses(t, pos, pos + |PrintField(f)|)
    decreases f
  {
    hide Crosses, At;
    FieldParts(t, pos, f);
    KeyCrossed(t, pos, f);
    var v := pos + |f.before| + |f.key| + 2 + |f.afterKey| + 1;
    ElemCrossed(t, v, f.elem);
    CrossTwo(t, pos, v, v + |PrintElem(f.elem)|);
  }

  lemma {:induction false} FieldsCrossed(t: string, pos: nat, fs: Fields)
    requires At(t, pos, PrintFields(fs)) && WellFormedFields(fs)
    ensures Crosses(t, pos, pos + |PrintFields(fs)|)
    decreases fs
  {
    hide Crosses, At, PrintField;
    match fs
    case LastField(field) => FieldCrossed(t, pos, field);
    case MoreFields(field, rest) =>
      var next := pos + |PrintField(field)|;
      JoinedParts(t, pos, PrintField(field), PrintFields(rest));
      FieldCrossed(t, pos, field);
      FieldsCrossed(t, next + 1, rest);
      JoinedCrossed(t, pos, next, next + 1 + |PrintFields(rest)|);
  }

  // SkipValue stops exactly at the end of the value.

  /** The text ends at pos, or a scalar would. */
  predicate Delimited(t: string, pos: nat) {
    pos < |t| ==> EndsScalar(t[pos])
  }

  lemma BracketedEnd(t: string, pos: nat, v: Json)
    requires At(t, pos, Print(v)) && WellFormed(v) && Bracketed(v)
    ensures ValueEnd(t, pos) == pos + |Print(v)|
  {
    hide At, Print, WellFormed;
    var end := pos + 1 + |Inside(v)|;
    BracketsAt(t, pos, v);
    InsideCrossed(t, pos + 1, v);
    assert Scan(t, pos + 1, OpenerOf(v), 1) == Scan(t, end, OpenerOf(v), 1);
    ScanStep(t, end, OpenerOf(v), 1);
  }

  lemma ValueEndExact(t: string, pos: nat, v: Json)
    requires At(t, pos, Print(v)) && WellFormed(v)
    requires v.Scalar? ==> Delimited(t, pos + |Print(v)|)
    ensures ValueEnd(t, pos) == pos + |Print(v)|
  {
    hide At, SkipNested;
    match v
    case Scalar(text) =>
      AtIndex(t, pos, text, 0);
      ScalarSkipped(t, pos, text);
    case Quoted(body) =>
      QuotedParts(t, pos, body);
      QuotedSkipped(t, pos + 1, body);
    case _ => BracketedEnd(t, pos, v);
  }

  lemma ValueStarts(t: string, pos: nat, v: Json)
    requires At(t, pos, Print(v)) && WellFormed(v)
    ensures pos < |t| && !IsSpace(t[pos]) && t[pos] != ']' && t[pos] != '}' && t[pos] != ',' && SkipSpace(t, pos) == pos
  {
    match v
    case Scalar(text) => AtIndex(t, pos, text, 0);
    case Quoted(body) => QuotedParts(t, pos, body);
    case _ => BracketsAt(t, pos, v);
  }

  /** SkipValue on a printed value followed by any suffix that ends a scalar. */
  lemma SkipValueExact(v: Json, suffix: string)
    requires WellFormed(v)
    requires suffix == "" || EndsScalar(suffix[0]) || !v.Scalar?
    ensures ValueEnd(Print(v) + suffix, SkipSpace(Print(v) + suffix, 0)) == |Print(v)|
  {
    var t := Print(v) + suffix;
    assert At(t, 0, Print(v));
    ValueStarts(t, 0, v);
    ValueEndExact(t, 0, v);
  }

  // Walking the elements of an array.

  /** Past a value, its trailing whitespace and one comma. */
  lemma ValueWalked(t: string, p: nat, v: Json, after: string)
    requires At(t, p, Print(v)) && WellFormed(v) && At(t, p + |Print(v)|, after) && Blank(after)
    requires var end := p + |Print(v)| + |after|; end < |t| && (t[end] == ',' || t[end] == ']' || t[end] == '}')
    ensures ValueEnd(t, p) == p + |Print(v)|
    ensures NextElement(t, p) == AfterComma(t, p + |Print(v)| + |after|)
    ensures Cut(t, p, ValueEnd(t, p)) == Print(v)
  {
    var q := p + |Print(v)|;
    if after != "" {
      AtIndex(t, q, after, 0);
    }
    ValueEndExact(t, p, v);
    SpaceSkipped(t, q, after);
  }

  lemma ElemStarts(t: string, pos: nat, e: Elem)
    requires At(t, pos, PrintElem(e)) && WellFormedElem(e)
    ensures var p := pos + |e.before|; p < |t| && SkipSpace(t, pos) == p && t[p] != ']' && At(t, p, Print(e.value))
    ensures |PrintElem(e)| == |e.before| + |Print(e.value)| + |e.after|
    ensures At(t, pos + |e.before| + |Print(e.value)|, e.after)
  {
    ElemParts(t, pos, e);
    SpaceSkipped(t, pos, e.before);
    ValueStarts(t, pos + |e.before|, e.value);
  }

  lemma RoundIs(t: string, pos: nat, p: nat, text: string, next: nat)
    requires SkipSpace(t, pos) == p && p < |t| && t[p] != ']'
    requires Cut(t, p, ValueEnd(t, p)) == text && NextElement(t, p) == next
    ensures RoundAt(t, pos) == Element(text, next)
  {
  }

  lemma ElemWalked(t: string, pos: nat, e: Elem)
    requires At(t, pos, PrintElem(e)) && WellFormedElem(e)
    requires var end := pos + |PrintElem(e)|; end < |t| && (t[end] == ',' || t[end] == ']')
    ensures RoundAt(t, pos) == Element(Print(e.value), AfterComma(t, pos + |PrintElem(e)|))
    ensures pos < pos + |PrintElem(e)|
  {
    hide At, PrintElem, ValueEnd, NextElement, RoundAt, SkipSpace;
    ElemStarts(t, pos, e);
    var p := pos + |e.before|;
    ValueWalked(t, p, e.value, e.after);
    RoundIs(t, pos, p, Print(e.value), AfterComma(t, pos + |PrintElem(e)|));
  }

  lemma WalkMore(t: string, pos: nat, text: string, next: nat)
    requires RoundAt(t, pos) == Element(text, next) && pos < next
    ensures ElementsFrom(t, pos) == [text] + ElementsFrom(t, next)
    ensures Diverges(t, pos) == Diverges(t, next)
  {
  }

  lemma WalkEnds(t: string, pos: nat)
    requires pos < |t| && t[pos] == ']'
    ensures ElementsFrom(t, pos) == [] && !Diverges(t, pos)
  {
  }

  /** The walk from pos reports these elements and then ends. */
  predicate Walks(t: string, pos: nat, values: seq<string>) {
    ElementsFrom(t, pos) == values && !Diverges(t, pos)
  }

  lemma WalksOn(t: string, pos: nat, e: Elem, next: nat, values: seq<string>)
    requires At(t, pos, PrintElem(e)) && WellFormedElem(e)
    requires var end := pos + |PrintElem(e)|; end < |t| && (t[end] == ',' || t[end] == ']') && next == AfterComma(t, end)
    requires Walks(t, next, values)
    ensures Walks(t, pos, [Print(e.value)] + values)
  {
    ElemWalked(t, pos, e);
    WalkMore(t, pos, Print(e.value), next);
  }

  lemma {:induction false} ElementsExact(t: string, pos: nat, es: Elems)
    requires At(t, pos, PrintElems(es)) && WellFormedElems(es)
    requires var end := pos + |PrintElems(es)|; end < |t| && t[end] == ']'
    ensures Walks(t, pos, Values(es))
    decreases es
  {
    hide Walks, Print, PrintElem, At, WellFormedElem;
    var end := pos + |PrintElem(es.elem)|;
    match es
    case LastElem(elem) =>
      WalkEnds(t, end);
      WalksOn(t, pos, elem, end, []);
      assert [Print(elem.value)] + [] == Values(es);
    case MoreElems(elem, rest) =>
      JoinedParts(t, pos, PrintElem(elem), PrintElems(rest));
      ElementsExact(t, end + 1, rest);
      WalksOn(t, pos, elem, end + 1, Values(rest));
  }

  /** ForEachElement on a printed array, whatever follows it, reports exactly its elements and ends. */
  lemma ArrayExact(t: string, v: Json)
    requires At(t, 0, Print(v)) && WellFormed(v) && (v.Array? || v.EmptyArray?)
    ensures ElementsFrom(t, 1) == ArrayValues(v) && !Diverges(t, 1)
  {
    hide Print, PrintElems, At;
    BracketsAt(t, 0, v);
    match v
    case EmptyArray(blank) => SpaceSkipped(t, 1, blank);
    case Array(elems) => ElementsExact(t, 1, elems);
  }

  /** FindElement on a printed array. */
  lemma FindExact(t: string, v: Json, index: nat)
    requires At(t, 0, Print(v)) && WellFormed(v) && (v.Array? || v.EmptyArray?)
    ensures Found(t, 1, index) == if index < |ArrayValues(v)| then Some(ArrayValues(v)[index]) else None
  {
    ArrayExact(t, v);
    FoundIsVisited(t, 1, index);
  }

  // Walking the fields of an object.

  lemma {:induction false} QuoteFound(t: string, pos: nat, body: string)
    requires At(t, pos, body) && !HasQuote(body) && pos + |body| < |t| && t[pos + |body|] == '"'
    ensures FindQuote(t, pos) == Some(pos + |body|)
    decreases |body|
  {
    if body != "" {
      AtIndex(t, pos, body, 0);
      AtTail(t, pos, body, 1);
      assert !HasQuote(body[1..]) by {
        assert forall i :: 0 <= i < |body[1..]| ==> body[1..][i] == body[i + 1];
      }
      QuoteFound(t, pos + 1, body[1..]);
    }
  }

  lemma {:induction false} QuoteFoundBy(t: string, pos: nat, quote: nat)
    requires pos <= quote < |t| && t[quote] == '"'
    ensures FindQuote(t, pos).Some? && FindQuote(t, pos).value <= quote
    decreases quote - pos
  {
    if t[pos] != '"' {
      QuoteFoundBy(t, pos + 1, quote);
    }
  }

  lemma KeyStarts(t: string, pos: nat, f: Field)
    requires At(t, pos, PrintField(f)) && Blank(f.before)
    ensures var p := pos + |f.before|; p < |t| && SkipSpace(t, pos) == p && t[p] == '"' && At(t, p + 1, f.key)
    ensures var end := pos + |f.before| + 1 + |f.key|; end < |t| && t[end] == '"'
  {
    FieldParts(t, pos, f);
    SpaceSkipped(t, pos, f.before);
    QuotedParts(t, pos + |f.before|, f.key);
  }

  lemma KeyFound(t: string, p: nat, key: string, afterKey: string)
    requires At(t, p + 1, key) && At(t, p + 2 + |key|, afterKey) && !HasQuote(key) && Blank(afterKey)
    requires var colon := p + 2 + |key| + |afterKey|; colon < |t| && t[colon] == ':' && t[p + 1 + |key|] == '"'
    ensures KeyAt(t, p) == Some((p + 1 + |key|, p + 2 + |key| + |afterKey|))
  {
    QuoteFound(t, p + 1, key);
    SpaceSkipped(t, p + 2 + |key|, afterKey);
  }

  lemma KeyTruncated(t: string, p: nat, key: string)
    requires At(t, p + 1, key) && HasQuote(key)
    ensures KeyAt(t, p).Some? ==> KeyAt(t, p).value.0 < p + 1 + |key|
  {
    var i :| 0 <= i < |key| && key[i] == '"';
    AtIndex(t, p + 1, key, i);
    QuoteFoundBy(t, p + 1, p + 1 + i);
  }

  lemma EntryIs(t: string, pos: nat, p: nat, end: nat, colon: nat, start: nat)
    requires SkipSpace(t, pos) == p && p < |t| && t[p] == '"'
    requires p < end < colon < |t| && KeyAt(t, p) == Some((end, colon)) && SkipSpace(t, colon + 1) == start
    ensures EntryAt(t, pos) == Entry(t[p + 1..end], Cut(t, start, ValueEnd(t, start)), NextElement(t, start))
  {
  }

  lemma FieldKey(t: string, pos: nat, f: Field)
    requires At(t, pos, PrintField(f)) && Blank(f.before) && Blank(f.afterKey) && !HasQuote(f.key)
    ensures var p := pos + |f.before|;
            && SkipSpace(t, pos) == p < |t| && t[p] == '"'
            && KeyAt(t, p) == Some((p + 1 + |f.key|, p + 2 + |f.key| + |f.afterKey|))
            && t[p + 1..p + 1 + |f.key|] == f.key
  {
    hide KeyAt, SkipSpace, PrintField;
    FieldParts(t, pos, f);
    KeyStarts(t, pos, f);
    KeyFound(t, pos + |f.before|, f.key, f.afterKey);
  }

  lemma FieldValue(t: string, pos: nat, f: Field)
    requires At(t, pos, PrintField(f)) && WellFormedElem(f.elem)
    requires var end := pos + |PrintField(f)|; end < |t| && (t[end] == ',' || t[end] == '}')
    ensures var colon := pos + |f.before| + 2 + |f.key| + |f.afterKey|;
            var start := colon + 1 + |f.elem.before|;
            && colon < start < |t| && SkipSpace(t, colon + 1) == start
            && Cut(t, start, ValueEnd(t, start)) == Print(f.elem.value)
            && NextElement(t, start) == AfterComma(t, pos + |PrintField(f)|)
  {
    hide ValueEnd, NextElement, Print, PrintElem, PrintField, At, SkipSpace, AfterComma, WellFormed;
    FieldParts(t, pos, f);
    var colon := pos + |f.before| + 2 + |f.key| + |f.afterKey|;
    ElemStarts(t, colon + 1, f.elem);
    ValueWalked(t, colon + 1 + |f.elem.before|, f.elem.value, f.elem.after);
  }

  /** A field whose key holds no quote is read whole. */
  lemma FieldWalked(t: string, pos: nat, f: Field)
    requires At(t, pos, PrintField(f)) && Blank(f.before) && Blank(f.afterKey) && WellFormedElem(f.elem)
    requires !HasQuote(f.key)
    requires var end := pos + |PrintField(f)|; end < |t| && (t[end] == ',' || t[end] == '}')
    ensures EntryAt(t, pos) == Entry(f.key, Print(f.elem.value), AfterComma(t, pos + |PrintField(f)|))
  {
    hide ValueEnd, NextElement, KeyAt, EntryAt, PrintField, At, SkipSpace;
    FieldKey(t, pos, f);
    FieldValue(t, pos, f);
    var p := pos + |f.before|;
    var colon := p + 2 + |f.key| + |f.afterKey|;
    EntryIs(t, pos, p, p + 1 + |f.key|, colon, colon + 1 + |f.elem.before|);
  }

  /** A field whose key holds an escaped quote is not: its key is cut short, or nothing is read. */
  lemma FieldTruncated(t: string, pos: nat, f: Field)
    requires At(t, pos, PrintField(f)) && Blank(f.before) && HasQuote(f.key)
    ensures EntryAt(t, pos).Entry? ==> |EntryAt(t, pos).key| < |f.key|
  {
    hide ValueEnd, NextElement, PrintField, At;
    KeyStarts(t, pos, f);
    KeyTruncated(t, pos + |f.before|, f.key);
  }

  lemma ListEnds(t: string, pos: nat)
    requires pos < |t| && t[pos] == '}'
    ensures EntriesFrom(t, pos) == []
  {
  }

  lemma ListMore(t: string, pos: nat, key: string, value: string, next: nat)
    requires EntryAt(t, pos) == Entry(key, value, next)
    ensures EntriesFrom(t, pos) == [(key, value)] + EntriesFrom(t, next)
  {
  }

  lemma SameTail<T>(x: T, a: seq<T>, b: seq<T>)
    ensures [x] + a == [x] + b <==> a == b
  {
    assert ([x] + a)[1..] == a && ([x] + b)[1..] == b;
  }

  /** A truncated first key shows in what is listed. */
  lemma FirstDiffers(t: string, pos: nat, f: Field, rest: seq<(string, string)>)
    requires At(t, pos, PrintField(f)) && Blank(f.before) && HasQuote(f.key)
    ensures EntriesFrom(t, pos) != [(f.key, Print(f.elem.value))] + rest
  {
    FieldTruncated(t, pos, f);
    var read := EntryAt(t, pos);
    if read.Entry? {
      ListMore(t, pos, read.key, read.value, read.next);
      assert EntriesFrom(t, pos)[0].0 == read.key;
    } else {
      assert EntriesFrom(t, pos) == [];
    }
  }

  lemma FieldListed(t: string, pos: nat, f: Field, rest: seq<(string, string)>)
    requires At(t, pos, PrintField(f)) && Blank(f.before) && Blank(f.afterKey) && WellFormedElem(f.elem)
    requires var end := pos + |PrintField(f)|; end < |t| && (t[end] == ',' || t[end] == '}')
    ensures EntriesFrom(t, pos) == [(f.key, Print(f.elem.value))] + rest
            <==> !HasQuote(f.key) && EntriesFrom(t, AfterComma(t, pos + |PrintField(f)|)) == rest
  {
    if HasQuote(f.key) {
      FirstDiffers(t, pos, f, rest);
    } else {
      var next := AfterComma(t, pos + |PrintField(f)|);
      FieldWalked(t, pos, f);
      ListMore(t, pos, f.key, Print(f.elem.value), next);
      SameTail((f.key, Print(f.elem.value)), EntriesFrom(t, next), rest);
    }
  }

  lemma {:induction false} FieldsExact(t: string, pos: nat, fs: Fields)
    requires At(t, pos, PrintFields(fs)) && WellFormedFields(fs)
    requires var end := pos + |PrintFields(fs)|; end < |t| && t[end] == '}'
    ensures EntriesFrom(t, pos) == Entries(fs) <==> !SomeKeyHasQuote(fs)
    decreases fs
  {
    hide EntriesFrom, At, PrintField, WellFormedElem;
    var end := pos + |PrintField(fs.field)|;
    match fs
    case LastField(field) =>
      ListEnds(t, end);
      FieldListed(t, pos, field, []);
    case MoreFields(field, rest) =>
      JoinedParts(t, pos, PrintField(field), PrintFields(rest));
      FieldsExact(t, end + 1, rest);
      FieldListed(t, pos, field, Entries(rest));
  }

  /**
    ForEachField on a printed object, whatever follows it, reports exactly its fields
    if and only if no key holds an escaped quote.
  */
  lemma ObjectExact(t: string, v: Json)
    requires At(t, 0, Print(v)) && WellFormed(v) && (v.Object? || v.EmptyObject?)
    ensures EntriesFrom(t, 1) == ObjectEntries(v) <==> !(v.Object? && SomeKeyHasQuote(v.fields))
  {
    hide Print, PrintFields, At;
    BracketsAt(t, 0, v);
    match v
    case EmptyObject(blank) => SpaceSkipped(t, 1, blank);
    case Object(fields) => FieldsExact(t, 1, fields);
  }

  /** An object with one field, whose key is an escaped quote. */
  function QuoteKeyed(): Json {
    Object(LastField(Field("", "\\\"", "", Elem("", Scalar("1"), ""))))
  }

  /** There are such objects. */
  lemma QuoteKeyLost(v: Json)
    requires v == QuoteKeyed()
    ensures WellFormed(v) && EntriesFrom(Print(v), 1) != ObjectEntries(v)
  {
    var key, e := v.fields.field.key, v.fields.field.elem;
    assert key[1] == '"';
    assert WellFormed(e.value) && WellFormedElem(e);
    assert StringBody(key) by {
      assert key[2..] == "";
    }
    assert WellFormedFields(v.fields);
    ObjectExact(Print(v), v);
  }
}
