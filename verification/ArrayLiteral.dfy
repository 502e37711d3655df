/** The array literal parser (internal/wal/mapper.go:375-464) against a printer in
    PostgreSQL's output form (section 8.15.6 of the PostgreSQL manual, "Array Input
    and Output Syntax"). Strings are sequences of characters: every byte the parser
    looks for is ASCII, which never occurs inside a longer UTF-8 sequence. */
module ArrayLiteral {
  import opened WalTypes

  // ----- Library behaviour the parser relies on -----

  predicate IsAsciiSpace(c: char) {
    c == ' ' || c == '\t' || c == '\n' || c == '\r' || c == '\U{000B}' || c == '\U{000C}'
  }

  // Unicode White_Space, which strings.TrimSpace removes.
  predicate IsSpace(c: char) {
    || IsAsciiSpace(c)
    || c == '\U{0085}' || c == '\U{00A0}' || c == '\U{1680}' || '\U{2000}' <= c <= '\U{200A}'
    || c == '\U{2028}' || c == '\U{2029}' || c == '\U{202F}' || c == '\U{205F}' || c == '\U{3000}'
  }

  function TrimLeft(s: string): (r: string)
    ensures |r| <= |s|
    ensures r != "" ==> !IsSpace(r[0])
  {
    if s != "" && IsSpace(s[0]) then TrimLeft(s[1..]) else s
  }

  function TrimRight(s: string): (r: string)
    ensures r <= s
    ensures r != "" ==> !IsSpace(r[|r| - 1])
  {
    if s != "" && IsSpace(s[|s| - 1]) then TrimRight(s[..|s| - 1]) else s
  }

  function Trim(s: string): string {
    TrimRight(TrimLeft(s))
  }

  ghost predicate Blank(s: string) {
    forall i :: 0 <= i < |s| ==> IsSpace(s[i])
  }

  lemma {:induction false} TrimLeftLeaves(s: string) returns (a: string)
    ensures Blank(a) && s == a + TrimLeft(s)
  {
    a := "";
    if s != "" && IsSpace(s[0]) {
      var more := TrimLeftLeaves(s[1..]);
      a := [s[0]] + more;
    }
  }

  lemma LastMoves(a: string, b: string, s: string)
    requires s != "" && s[..|s| - 1] == a + b
    ensures s == a + (b + [s[|s| - 1]])
  {
  }

  lemma {:induction false} TrimRightLeaves(s: string) returns (b: string)
    ensures Blank(b) && s == TrimRight(s) + b
  {
    b := "";
    if s != "" && IsSpace(s[|s| - 1]) {
      var n := |s| - 1;
      var more := TrimRightLeaves(s[..n]);
      b := more + [s[n]];
      LastMoves(TrimRight(s), more, s);
    }
  }

  /** Trimming takes white space off both ends, all of it and nothing else. */
  lemma TrimIsExact(s: string) returns (a: string, b: string)
    ensures Blank(a) && Blank(b) && s == a + Trim(s) + b
    ensures var t := Trim(s); t != "" ==> !IsSpace(t[0]) && !IsSpace(t[|t| - 1])
  {
    a := TrimLeftLeaves(s);
    b := TrimRightLeaves(TrimLeft(s));
    assert a + (Trim(s) + b) == a + Trim(s) + b;
    assert Trim(s) <= TrimLeft(s);
  }

  // strings.EqualFold(s, "NULL"); no other character folds to these letters.
  predicate IsNullWord(s: string) {
    && |s| == 4
    && (s[0] == 'N' || s[0] == 'n') && (s[1] == 'U' || s[1] == 'u')
    && (s[2] == 'L' || s[2] == 'l') && (s[3] == 'L' || s[3] == 'l')
  }

  // ----- What the splitter computes -----

  function SkipSpaces(s: string): (r: string)
    ensures |r| <= |s|
    ensures r != "" ==> r[0] != ' '
  {
    if s != "" && s[0] == ' ' then SkipSpaces(s[1..]) else s
  }

  // The text up to the closing quote with escapes undone, and what follows it.
  function Unquote(s: string): (r: (string, string))
    ensures |r.1| <= |s|
  {
    if s == "" then ("", "")
    else if s[0] == '\\' && |s| > 1 then
      var (text, rest) := Unquote(s[2..]);
      ([s[1]] + text, rest)
    else if s[0] == '"' then ("", s[1..])
    else
      var (text, rest) := Unquote(s[1..]);
      ([s[0]] + text, rest)
  }

  function CommaAt(s: string): (k: nat)
    ensures k <= |s|
    ensures k < |s| ==> s[k] == ','
    ensures forall i :: 0 <= i < k ==> s[i] != ','
  {
    if s == "" || s[0] == ',' then 0 else 1 + CommaAt(s[1..])
  }

  function PastComma(s: string): (r: string)
    ensures |r| <= |s|
    ensures s != "" && s[0] == ',' ==> |r| < |s|
  {
    if s != "" && s[0] == ',' then s[1..] else s
  }

  function Split(s: string): seq<string>
    decreases |s|
  {
    var t := SkipSpaces(s);
    if t == "" then []
    else if t[0] == '"' then
      var (text, rest) := Unquote(t[1..]);
      [text] + Split(PastComma(SkipSpaces(rest)))
    else [Trim(t[..CommaAt(t)])] + Split(PastComma(t[CommaAt(t)..]))
  }

  // ----- The splitter -----

  method SkipFrom(s: string, from: nat) returns (i: nat)
    requires from <= |s|
    ensures from <= i <= |s| && s[i..] == SkipSpaces(s[from..])
  {
    i := from;
    while i < |s| && s[i] == ' '
      invariant from <= i <= |s|
      invariant SkipSpaces(s[i..]) == SkipSpaces(s[from..])
    {
      assert s[i..][1..] == s[i + 1..];
      i := i + 1;
    }
  }

  // The scanner has read text so far, and goes on at s.
  function Resumed(text: string, s: string): (string, string) {
    (text + Unquote(s).0, Unquote(s).1)
  }

  lemma ResumeChar(text: string, s: string, i: nat)
    requires i < |s| && s[i] != '"' && !(s[i] == '\\' && i + 1 < |s|)
    ensures Resumed(text, s[i..]) == Resumed(text + [s[i]], s[i + 1..])
  {
    assert s[i..][1..] == s[i + 1..];
    assert text + ([s[i]] + Unquote(s[i + 1..]).0) == text + [s[i]] + Unquote(s[i + 1..]).0;
  }

  lemma ResumeEscape(text: string, s: string, i: nat)
    requires i + 1 < |s| && s[i] == '\\'
    ensures Resumed(text, s[i..]) == Resumed(text + [s[i + 1]], s[i + 2..])
  {
    assert s[i..][2..] == s[i + 2..];
    assert text + ([s[i + 1]] + Unquote(s[i + 2..]).0) == text + [s[i + 1]] + Unquote(s[i + 2..]).0;
  }

  lemma ResumeEnds(text: string, s: string, i: nat)
    requires i <= |s| && (i < |s| ==> s[i] == '"')
    ensures Resumed(text, s[i..]) == (text, if i < |s| then s[i + 1..] else s[i..])
  {
    assert text + "" == text;
  }

  method UnquoteFrom(s: string, from: nat) returns (text: string, i: nat)
    requires from <= |s|
    ensures from <= i <= |s| && (text, s[i..]) == Unquote(s[from..])
  {
    text, i := "", from;
    assert "" + Unquote(s[from..]).0 == Unquote(s[from..]).0;
    while i < |s|
      invariant from <= i <= |s|
      invariant Resumed(text, s[i..]) == Unquote(s[from..])
    {
      var c := s[i];
      if c == '\\' && i + 1 < |s| {
        ResumeEscape(text, s, i);
        i := i + 1;
        text := text + [s[i]];
      } else if c == '"' {
        ResumeEnds(text, s, i);
        i := i + 1;
        return;
      } else {
        ResumeChar(text, s, i);
        text := text + [c];
      }
      i := i + 1;
    }
    ResumeEnds(text, s, i);
  }

  method CommaFrom(s: string, from: nat) returns (i: nat)
    requires from <= |s|
    ensures from <= i <= |s| && i == from + CommaAt(s[from..])
  {
    i := from;
    while i < |s| && s[i] != ','
      invariant from <= i <= |s|
      invariant i + CommaAt(s[i..]) == from + CommaAt(s[from..])
    {
      assert s[i..][1..] == s[i + 1..];
      i := i + 1;
    }
  }

  lemma SplitSkips(s: string)
    ensures Split(s) == Split(SkipSpaces(s))
  {
    assert SkipSpaces(SkipSpaces(s)) == SkipSpaces(s);
  }

  lemma SplitQuotedStep(t: string)
    requires t != "" && t[0] == '"'
    ensures Split(t) == [Unquote(t[1..]).0] + Split(PastComma(SkipSpaces(Unquote(t[1..]).1)))
  {
    assert SkipSpaces(t) == t;
  }

  lemma SplitBareStep(t: string)
    requires t != "" && t[0] != '"' && t[0] != ' '
    ensures Split(t) == [Trim(t[..CommaAt(t)])] + Split(PastComma(t[CommaAt(t)..]))
  {
    assert SkipSpaces(t) == t;
  }

  method PassComma(s: string, at: nat) returns (i: nat)
    requires at <= |s|
    ensures at <= i <= |s| && s[i..] == PastComma(s[at..])
  {
    i := if at < |s| && s[at] == ',' then at + 1 else at;
  }

  // What splitting off one element at a position leaves.
  lemma QuotedAt(s: string, at: nat)
    requires at < |s| && s[at] == '"'
    ensures var (text, rest) := Unquote(s[at + 1..]);
      Split(s[at..]) == [text] + Split(PastComma(SkipSpaces(rest)))
  {
    assert s[at..][1..] == s[at + 1..];
    SplitQuotedStep(s[at..]);
  }

  lemma BareAt(s: string, at: nat, end: nat)
    requires at < |s| && s[at] != '"' && s[at] != ' ' && end == at + CommaAt(s[at..])
    ensures Split(s[at..]) == [Trim(s[at..end])] + Split(PastComma(s[end..]))
  {
    var t := s[at..];
    assert t[..CommaAt(t)] == s[at..end] && t[CommaAt(t)..] == s[end..];
    SplitBareStep(t);
  }

  // One element and the comma after it.
  method TakeElement(s: string, at: nat) returns (elem: string, i: nat)
    requires at < |s| && s[at] != ' '
    ensures at <= i <= |s| && Split(s[at..]) == [elem] + Split(s[i..])
    ensures i > at
  {
    if s[at] == '"' {
      QuotedAt(s, at);
      elem, i := UnquoteFrom(s, at + 1);
      i := SkipFrom(s, i);
      i := PassComma(s, i);
    } else {
      var end := CommaFrom(s, at);
      BareAt(s, at, end);
      elem := Trim(s[at..end]);
      i := PassComma(s, end);
    }
  }

  method SplitArrayElements(s: string) returns (elems: seq<string>)
    ensures elems == Split(s)
  {
    elems := [];
    var i := 0;
    while i < |s|
      invariant 0 <= i <= |s|
      invariant elems + Split(s[i..]) == Split(s)
    {
      SplitSkips(s[i..]);
      i := SkipFrom(s, i);
      if i >= |s| {
        break;
      }
      var elem, next := TakeElement(s, i);
      elems, i := elems + [elem], next;
    }
  }

  // ----- The parser -----

  // One element after the NULL test; None is a value mapping error.
  type Mapper = string -> Option<Value>

  function ElementOf(mapElem: Mapper, elem: string): Option<Value> {
    if IsNullWord(elem) then Some(Null) else mapElem(elem)
  }

  function ElementsOf(mapElem: Mapper, elems: seq<string>): Option<seq<Value>> {
    if elems == [] then Some([])
    else
      var init := ElementsOf(mapElem, elems[..|elems| - 1]);
      var last := ElementOf(mapElem, elems[|elems| - 1]);
      if init.Some? && last.Some? then Some(init.value + [last.value]) else None
  }

  // A text that is no one-dimensional array literal passes through as a string.
  function Parsed(mapElem: Mapper, text: string): Option<Value> {
    var s := Trim(text);
    if |s| < 2 || s[0] != '{' || s[|s| - 1] != '}' then Some(Text(s))
    else
      var inner := s[1..|s| - 1];
      var trimmed := Trim(inner);
      if "{" <= trimmed then Some(Text(s))
      else if trimmed == "" then Some(List([]))
      else
        var values := ElementsOf(mapElem, Split(inner));
        if values.Some? then Some(List(values.value)) else None
  }

  lemma {:induction false} ElementsFail(mapElem: Mapper, elems: seq<string>, n: nat)
    requires n <= |elems| && ElementsOf(mapElem, elems[..n]).None?
    ensures ElementsOf(mapElem, elems).None?
    decreases |elems| - n
  {
    if n < |elems| {
      assert elems[..n + 1][..n] == elems[..n];
      ElementsFail(mapElem, elems, n + 1);
    } else {
      assert elems[..n] == elems;
    }
  }

  lemma {:induction false} ElementsAreExact(mapElem: Mapper, elems: seq<string>)
    ensures var r := ElementsOf(mapElem, elems);
      && (r.None? <==> exists i :: 0 <= i < |elems| && !IsNullWord(elems[i]) && mapElem(elems[i]).None?)
      && (r.Some? ==> |r.value| == |elems| && forall i :: 0 <= i < |elems| ==>
                        Some(r.value[i]) == if IsNullWord(elems[i]) then Some(Null) else mapElem(elems[i]))
  {
    if elems != [] {
      ElementsAreExact(mapElem, elems[..|elems| - 1]);
    }
  }

  // The loop of parseArray.
  method MapElements(mapElem: Mapper, elems: seq<string>) returns (r: Option<seq<Value>>)
    ensures r.None? <==> exists i :: 0 <= i < |elems| && !IsNullWord(elems[i]) && mapElem(elems[i]).None?
    ensures r.Some? ==> |r.value| == |elems|
    ensures r.Some? ==> forall i :: 0 <= i < |elems| ==>
              Some(r.value[i]) == if IsNullWord(elems[i]) then Some(Null) else mapElem(elems[i])
    ensures r == ElementsOf(mapElem, elems)
  {
    ElementsAreExact(mapElem, elems);
    var result: seq<Value> := [];
    for n := 0 to |elems|
      invariant ElementsOf(mapElem, elems[..n]) == Some(result)
    {
      assert elems[..n + 1][..n] == elems[..n];
      if IsNullWord(elems[n]) {
        result := result + [Null];
        continue;
      }
      var v := mapElem(elems[n]);
      if v.None? {
        ElementsFail(mapElem, elems, n + 1);
        return None;
      }
      result := result + [v.value];
    }
    assert elems[..|elems|] == elems;
    r := Some(result);
  }

  // A text without braces passes through trimmed, and so does a nested array; a blank
  // inside is the empty list.
  method ParseArray(mapElem: Mapper, text: string) returns (r: Option<Value>)
    ensures var s := Trim(text);
      if |s| < 2 || s[0] != '{' || s[|s| - 1] != '}' || "{" <= Trim(s[1..|s| - 1]) then r == Some(Text(s))
      else if Trim(s[1..|s| - 1]) == "" then r == Some(List([]))
      else
        var elems := Split(s[1..|s| - 1]);
        && (r.None? <==> exists i :: 0 <= i < |elems| && !IsNullWord(elems[i]) && mapElem(elems[i]).None?)
        && (r.Some? ==> r.value.List? && |r.value.elems| == |elems| && forall i :: 0 <= i < |elems| ==>
                          Some(r.value.elems[i]) == if IsNullWord(elems[i]) then Some(Null) else mapElem(elems[i]))
    ensures r == Parsed(mapElem, text)
  {
    var s := Trim(text);
    if |s| < 2 || s[0] != '{' || s[|s| - 1] != '}' {
      return Some(Text(s));
    }
    var inner := s[1..|s| - 1];
    var trimmed := Trim(inner);
    if "{" <= trimmed {
      return Some(Text(s));
    }
    if trimmed == "" {
      return Some(List([]));
    }
    var elems := SplitArrayElements(inner);
    var result := MapElements(mapElem, elems);
    r := if result.Some? then Some(List(result.value)) else None;
  }

  // ----- The printer -----

  // Characters that make the server quote an element.
  predicate Special(c: char) {
    c == '"' || c == '\\' || c == '{' || c == '}' || c == ',' || IsAsciiSpace(c)
  }

  predicate MustQuote(s: string) {
    s == "" || IsNullWord(s) || exists i :: 0 <= i < |s| && Special(s[i])
  }

  // A quoting rule that quotes at least what must be quoted.
  ghost predicate Quotes(rule: string -> bool) {
    forall s :: MustQuote(s) ==> rule(s)
  }

  function Escape(s: string): string {
    if s == "" then ""
    else (if s[0] == '"' || s[0] == '\\' then ['\\', s[0]] else [s[0]]) + Escape(s[1..])
  }

  // None is an SQL NULL element.
  type Item = Option<string>

  function PrintItem(rule: string -> bool, item: Item): string {
    if item.None? then "NULL"
    else if rule(item.value) then ['"'] + Escape(item.value) + ['"']
    else item.value
  }

  function PrintItems(rule: string -> bool, items: seq<Item>): string {
    if items == [] then ""
    else if |items| == 1 then PrintItem(rule, items[0])
    else PrintItem(rule, items[0]) + "," + PrintItems(rule, items[1..])
  }

  function Print(rule: string -> bool, items: seq<Item>): string {
    "{" + PrintItems(rule, items) + "}"
  }

  // ----- Splitting what was printed -----

  // What the splitter recovers of one printed element.
  function Seen(rule: string -> bool, item: Item): string {
    if item.None? then "NULL" else if rule(item.value) then item.value else Trim(item.value)
  }

  lemma UnquoteOne(c: char, tail: string)
    ensures c == '"' || c == '\\' ==> Unquote(['\\', c] + tail) == ([c] + Unquote(tail).0, Unquote(tail).1)
    ensures c != '"' && c != '\\' ==> Unquote([c] + tail) == ([c] + Unquote(tail).0, Unquote(tail).1)
  {
    if c == '"' || c == '\\' {
      assert (['\\', c] + tail)[2..] == tail;
    } else {
      assert ([c] + tail)[1..] == tail;
    }
  }

  lemma EscapeOne(s: string, rest: string)
    requires s != ""
    ensures Escape(s) + rest ==
              (if s[0] == '"' || s[0] == '\\' then ['\\', s[0]] else [s[0]]) + (Escape(s[1..]) + rest)
  {
  }

  lemma {:induction false} UnquoteEscaped(s: string, rest: string)
    ensures Unquote(Escape(s) + (['"'] + rest)) == (s, rest)
  {
    if s == "" {
      assert Escape(s) + (['"'] + rest) == ['"'] + rest;
      assert (['"'] + rest)[1..] == rest;
    } else {
      var tail := Escape(s[1..]) + (['"'] + rest);
      UnquoteEscaped(s[1..], rest);
      UnquoteOne(s[0], tail);
      EscapeOne(s, ['"'] + rest);
      assert s == [s[0]] + s[1..];
    }
  }

  lemma {:induction false} CommaAfter(s: string, rest: string)
    requires forall i :: 0 <= i < |s| ==> s[i] != ','
    requires rest == "" || rest[0] == ','
    ensures CommaAt(s + rest) == |s|
  {
    if s == "" {
      assert s + rest == rest;
    } else {
      assert (s + rest)[1..] == s[1..] + rest;
      CommaAfter(s[1..], rest);
    }
  }

  lemma SplitBare(s: string, rest: string)
    requires s != "" && forall i :: 0 <= i < |s| ==> !Special(s[i])
    requires rest == "" || rest[0] == ','
    ensures Split(s + rest) == [Trim(s)] + Split(PastComma(rest))
  {
    CommaAfter(s, rest);
    assert (s + rest)[0] == s[0] && SkipSpaces(s + rest) == s + rest;
    assert (s + rest)[..|s|] == s && (s + rest)[|s|..] == rest;
  }

  lemma SplitQuoted(s: string, rest: string)
    requires rest == "" || rest[0] == ','
    ensures Split(['"'] + Escape(s) + ['"'] + rest) == [s] + Split(PastComma(rest))
  {
    var text := ['"'] + Escape(s) + ['"'] + rest;
    assert text[1..] == Escape(s) + (['"'] + rest);
    UnquoteEscaped(s, rest);
    SplitQuotedStep(text);
    assert SkipSpaces(rest) == rest;
  }

  lemma NullTrims()
    ensures Trim("NULL") == "NULL"
  {
  }

  lemma SplitItem(rule: string -> bool, item: Item, rest: string)
    requires Quotes(rule) && (rest == "" || rest[0] == ',')
    ensures Split(PrintItem(rule, item) + rest) == [Seen(rule, item)] + Split(PastComma(rest))
  {
    if item.None? {
      NullTrims();
      SplitBare("NULL", rest);
    } else if rule(item.value) {
      SplitQuoted(item.value, rest);
    } else {
      assert !MustQuote(item.value);
      SplitBare(item.value, rest);
    }
  }

  function AllSeen(rule: string -> bool, items: seq<Item>): seq<string> {
    seq(|items|, i requires 0 <= i < |items| => Seen(rule, items[i]))
  }

  lemma AllSeenFirst(rule: string -> bool, items: seq<Item>)
    requires items != []
    ensures AllSeen(rule, items) == [Seen(rule, items[0])] + AllSeen(rule, items[1..])
  {
  }

  lemma SplitOnly(rule: string -> bool, items: seq<Item>)
    requires Quotes(rule) && |items| == 1
    ensures Split(PrintItems(rule, items)) == AllSeen(rule, items)
  {
    SplitItem(rule, items[0], "");
    assert PrintItem(rule, items[0]) + "" == PrintItems(rule, items);
    assert Split(PastComma("")) == [];
  }

  lemma SplitFirst(rule: string -> bool, items: seq<Item>)
    requires Quotes(rule) && |items| > 1
    ensures Split(PrintItems(rule, items)) == [Seen(rule, items[0])] + Split(PrintItems(rule, items[1..]))
  {
    var more := PrintItems(rule, items[1..]);
    var rest := [','] + more;
    assert PrintItems(rule, items) == PrintItem(rule, items[0]) + rest;
    assert PastComma(rest) == more by {
      assert rest[1..] == more;
    }
    SplitItem(rule, items[0], rest);
  }

  lemma {:induction false} SplitPrinted(rule: string -> bool, items: seq<Item>)
    requires Quotes(rule)
    ensures Split(PrintItems(rule, items)) == AllSeen(rule, items)
  {
    if items == [] {
    } else if |items| == 1 {
      SplitOnly(rule, items);
    } else {
      SplitFirst(rule, items);
      SplitPrinted(rule, items[1..]);
      AllSeenFirst(rule, items);
    }
  }

  // ----- Splitting any text -----

  // What stands between quotes: plain characters, and characters after a backslash.
  datatype Piece = Plain(c: char) | Escaped(c: char)

  predicate Proper(pieces: seq<Piece>) {
    forall i :: 0 <= i < |pieces| && pieces[i].Plain? ==> pieces[i].c != '"' && pieces[i].c != '\\'
  }

  function Raw(pieces: seq<Piece>): string {
    if pieces == [] then ""
    else (if pieces[0].Plain? then [pieces[0].c] else ['\\', pieces[0].c]) + Raw(pieces[1..])
  }

  function Meant(pieces: seq<Piece>): string {
    if pieces == [] then "" else [pieces[0].c] + Meant(pieces[1..])
  }

  lemma UnquotePiece(p: Piece, tail: string)
    requires Proper([p])
    ensures Unquote((if p.Plain? then [p.c] else ['\\', p.c]) + tail) == ([p.c] + Unquote(tail).0, Unquote(tail).1)
  {
    if p.Plain? {
      assert [p][0] == p;
      assert ([p.c] + tail)[1..] == tail;
    } else {
      assert (['\\', p.c] + tail)[2..] == tail;
    }
  }

  lemma {:induction false} UnquotePieces(pieces: seq<Piece>, tail: string)
    requires Proper(pieces)
    ensures Unquote(Raw(pieces) + tail) == (Meant(pieces) + Unquote(tail).0, Unquote(tail).1)
  {
    if pieces == [] {
      assert Raw(pieces) + tail == tail && Meant(pieces) + Unquote(tail).0 == Unquote(tail).0;
    } else {
      var first := if pieces[0].Plain? then [pieces[0].c] else ['\\', pieces[0].c];
      UnquotePieces(pieces[1..], tail);
      assert Raw(pieces) + tail == first + (Raw(pieces[1..]) + tail);
      UnquotePiece(pieces[0], Raw(pieces[1..]) + tail);
      assert Meant(pieces) + Unquote(tail).0 == [pieces[0].c] + (Meant(pieces[1..]) + Unquote(tail).0);
    }
  }

  /** Text that starts with a quote: what is between the quotes, escapes undone, is the
      first element, and the rest goes on after spaces and at most one comma. */
  lemma SplitsQuoted(pieces: seq<Piece>, rest: string)
    requires Proper(pieces)
    ensures Split(['"'] + Raw(pieces) + ['"'] + rest) == [Meant(pieces)] + Split(PastComma(SkipSpaces(rest)))
  {
    var text, closed := ['"'] + Raw(pieces) + ['"'] + rest, ['"'] + rest;
    assert closed[1..] == rest;
    assert Unquote(closed) == ("", rest);
    UnquotePieces(pieces, closed);
    assert text[1..] == Raw(pieces) + closed && Meant(pieces) + "" == Meant(pieces);
    SplitQuotedStep(text);
  }

  /** An opening quote that is never closed takes in all the rest; a backslash at the very
      end stands for itself. */
  lemma SplitsOpenQuote(pieces: seq<Piece>, tail: string)
    requires Proper(pieces) && (tail == "" || tail == "\\")
    ensures Split(['"'] + Raw(pieces) + tail) == [Meant(pieces) + tail]
  {
    var text := ['"'] + Raw(pieces) + tail;
    if tail != "" {
      assert tail[1..] == "" && [tail[0]] + "" == tail;
    }
    UnquotePieces(pieces, tail);
    assert text[1..] == Raw(pieces) + tail;
    SplitQuotedStep(text);
    assert Split(PastComma(SkipSpaces(""))) == [];
  }

  /** Any other text: up to the next comma, if there is one, it is one trimmed element. */
  lemma SplitsBare(s: string, rest: string)
    requires ',' !in s && (s != "" ==> s[0] != '"' && s[0] != ' ')
    ensures s != "" ==> Split(s) == [Trim(s)]
    ensures Split(s + "," + rest) == [Trim(s)] + Split(rest)
  {
    if s != "" {
      BareEnds(s, "");
      assert s + "" == s && Split(PastComma("")) == [];
    }
    var more := "," + rest;
    assert s + "," + rest == s + more && more[1..] == rest;
    BareEnds(s, more);
  }

  lemma BareEnds(s: string, more: string)
    requires ',' !in s && (s != "" ==> s[0] != '"' && s[0] != ' ')
    requires (more == "" && s != "") || (more != "" && more[0] == ',')
    ensures Split(s + more) == [Trim(s)] + Split(PastComma(more))
  {
    CommaAfter(s, more);
    assert (s + more)[..|s|] == s && (s + more)[|s|..] == more;
    SplitBareStep(s + more);
  }

  /** Spaces in front of an element are nothing, and nothing has no elements. */
  lemma {:induction false} SplitsSpaces(s: string, n: nat)
    ensures Split(seq(n, _ => ' ') + s) == Split(s) && Split("") == []
  {
    var spaces: string := seq(n, _ => ' ');
    if n == 0 {
      assert spaces + s == s;
    } else {
      var fewer: string := seq(n - 1, _ => ' ');
      assert (spaces + s)[1..] == fewer + s;
      SplitsSpaces(s, n - 1);
      SplitSkips(spaces + s);
      SplitSkips(fewer + s);
    }
  }

  // ----- Around the splitter -----

  // Where the first visible character is.
  ghost function Margin(s: string): nat {
    if s == "" || !IsSpace(s[0]) then 0 else 1 + Margin(s[1..])
  }

  lemma {:induction false} MarginIsBlank(s: string)
    ensures Margin(s) <= |s| && (Blank(s) <==> Margin(s) == |s|)
    ensures Margin(s) < |s| ==> !IsSpace(s[Margin(s)])
  {
    if s != "" && IsSpace(s[0]) {
      MarginIsBlank(s[1..]);
      assert Blank(s) <==> Blank(s[1..]) by {
        assert forall i :: 0 < i < |s| ==> s[i] == s[1..][i - 1];
        assert forall i :: 0 <= i < |s| - 1 ==> s[1..][i] == s[i + 1];
      }
    }
  }

  lemma {:induction false} TrimLeftAt(s: string, rest: string)
    ensures Margin(s) < |s| ==> TrimLeft(s + rest) == s[Margin(s)..] + rest
    ensures Margin(s) >= |s| ==> TrimLeft(s + rest) == TrimLeft(rest)
  {
    if s == "" {
      assert s + rest == rest;
    } else {
      assert (s + rest)[1..] == s[1..] + rest;
      if IsSpace(s[0]) {
        TrimLeftAt(s[1..], rest);
        assert Margin(s) < |s| ==> s[1..][Margin(s) - 1..] == s[Margin(s)..];
      }
    }
  }

  lemma {:induction false} TrimRightKeepsFirst(s: string)
    requires s != "" && !IsSpace(s[0])
    ensures TrimRight(s) != "" && TrimRight(s)[0] == s[0]
  {
    if IsSpace(s[|s| - 1]) {
      TrimRightKeepsFirst(s[..|s| - 1]);
    }
  }

  lemma BlankTrims(s: string)
    ensures Trim(s) == "" <==> Blank(s)
    ensures !Blank(s) ==> Trim(s)[0] in s
  {
    MarginIsBlank(s);
    TrimLeftAt(s, "");
    assert s + "" == s;
    if !Blank(s) {
      assert s[Margin(s)..] + "" == s[Margin(s)..];
      TrimRightKeepsFirst(TrimLeft(s));
    }
  }

  // Only a single unquoted element made of white space prints blank.
  ghost predicate PrintsBlank(rule: string -> bool, items: seq<Item>) {
    items == [] || (|items| == 1 && items[0].Some? && !rule(items[0].value) && Blank(items[0].value))
  }

  lemma FirstVisible(head: string, rest: string)
    requires !Blank(head)
    ensures Trim(head + rest) != "" && Trim(head + rest)[0] in head
  {
    MarginIsBlank(head);
    TrimLeftAt(head, rest);
    assert (head[Margin(head)..] + rest)[0] == head[Margin(head)];
    TrimRightKeepsFirst(TrimLeft(head + rest));
  }

  lemma CommaVisible(head: string, rest: string)
    requires Blank(head) && rest != "" && rest[0] == ','
    ensures Trim(head + rest) != "" && Trim(head + rest)[0] == ','
  {
    MarginIsBlank(head);
    TrimLeftAt(head, rest);
    TrimRightKeepsFirst(rest);
  }

  lemma FirstPrinted(rule: string -> bool, items: seq<Item>)
    requires Quotes(rule)
    ensures Trim(PrintItems(rule, items)) == "" <==> PrintsBlank(rule, items)
    ensures !("{" <= Trim(PrintItems(rule, items)))
  {
    if items == [] {
      assert Trim("") == "";
    } else {
      var head := PrintItem(rule, items[0]);
      var rest := if |items| == 1 then "" else "," + PrintItems(rule, items[1..]);
      assert PrintItems(rule, items) == head + rest;
      HeadShape(rule, items[0]);
      if !Blank(head) {
        HeadVisible(rule, items[0], rest);
      } else if |items| > 1 {
        CommaVisible(head, rest);
      } else {
        assert head + rest == head;
        BlankTrims(head);
      }
    }
  }

  // The first visible character of a printed element opens no brace.
  lemma HeadVisible(rule: string -> bool, item: Item, rest: string)
    requires Quotes(rule) && !Blank(PrintItem(rule, item))
    ensures Trim(PrintItem(rule, item) + rest) != "" && Trim(PrintItem(rule, item) + rest)[0] != '{'
  {
    var head := PrintItem(rule, item);
    HeadShape(rule, item);
    if head[0] == '"' {
      assert (head + rest)[0] == '"' && TrimLeft(head + rest) == head + rest;
      TrimRightKeepsFirst(head + rest);
    } else {
      FirstVisible(head, rest);
    }
  }

  // A printed element is blank, or its first visible character opens no brace.
  lemma HeadShape(rule: string -> bool, item: Item)
    requires Quotes(rule)
    ensures Blank(PrintItem(rule, item)) <==> PrintsBlank(rule, [item])
    ensures forall i :: 0 <= i < |PrintItem(rule, item)| && PrintItem(rule, item)[i] == '{' ==>
              PrintItem(rule, item)[0] == '"'
  {
    if item.Some? && rule(item.value) {
      assert PrintItem(rule, item)[0] == '"';
    } else if item.Some? {
      assert !MustQuote(item.value);
    } else {
      assert PrintItem(rule, item)[0] == 'N';
    }
  }

  // ----- Round trip -----

  // Element types whose text passes through: text, varchar, bpchar, uuid, numeric, int8.
  function TextElement(s: string): Option<Value> {
    Some(Text(s))
  }

  function ValueOf(item: Item): Value {
    if item.None? then Null else Text(item.value)
  }

  function ValuesOf(items: seq<Item>): seq<Value> {
    seq(|items|, i requires 0 <= i < |items| => ValueOf(items[i]))
  }

  // An element comes back when it is not the word NULL and no white space is lost
  // from its ends.
  predicate Faithful(rule: string -> bool, item: Item) {
    item.Some? ==> !IsNullWord(item.value) && (rule(item.value) || Trim(item.value) == item.value)
  }

  lemma FaithfulElement(rule: string -> bool, item: Item)
    ensures ElementOf(TextElement, Seen(rule, item)) == Some(ValueOf(item)) <==> Faithful(rule, item)
  {
  }

  lemma {:induction false} ElementsAre(elems: seq<string>)
    ensures ElementsOf(TextElement, elems).Some?
    ensures |ElementsOf(TextElement, elems).value| == |elems|
    ensures forall i :: 0 <= i < |elems| ==>
              Some(ElementsOf(TextElement, elems).value[i]) == ElementOf(TextElement, elems[i])
  {
    if elems != [] {
      ElementsAre(elems[..|elems| - 1]);
    }
  }

  lemma ParsePrinted(rule: string -> bool, items: seq<Item>)
    requires Quotes(rule)
    ensures ElementsOf(TextElement, AllSeen(rule, items)).Some?
    ensures Parsed(TextElement, Print(rule, items))
         == if PrintsBlank(rule, items) then Some(List([]))
            else Some(List(ElementsOf(TextElement, AllSeen(rule, items)).value))
  {
    var text := Print(rule, items);
    assert text[0] == '{' && text[|text| - 1] == '}';
    assert Trim(text) == text;
    assert text[1..|text| - 1] == PrintItems(rule, items);
    FirstPrinted(rule, items);
    SplitPrinted(rule, items);
    ElementsAre(AllSeen(rule, items));
  }

  /** Round trip: under any quoting rule that quotes what must be quoted, printing a
      list and parsing it gives the list back exactly when every element is faithful.
      Quoting is not remembered, so the word NULL is lost however it was printed. */
  lemma RoundTrip(rule: string -> bool, items: seq<Item>)
    requires Quotes(rule)
    ensures Parsed(TextElement, Print(rule, items)) == Some(List(ValuesOf(items)))
       <==> forall i :: 0 <= i < |items| ==> Faithful(rule, items[i])
  {
    ParsePrinted(rule, items);
    var seen := AllSeen(rule, items);
    ElementsAre(seen);
    forall i | 0 <= i < |items|
      ensures ElementOf(TextElement, seen[i]) == Some(ValuesOf(items)[i]) <==> Faithful(rule, items[i])
    {
      FaithfulElement(rule, items[i]);
    }
    if PrintsBlank(rule, items) {
      if items != [] {
        BlankTrims(items[0].value);
        assert !Faithful(rule, items[0]);
      }
    } else {
      var values := ElementsOf(TextElement, seen).value;
      if forall i :: 0 <= i < |items| ==> Faithful(rule, items[i]) {
        assert values == ValuesOf(items);
      } else {
        var i :| 0 <= i < |items| && !Faithful(rule, items[i]);
        assert values[i] != ValuesOf(items)[i];
      }
    }
  }

  // ----- The two rules -----

  // White space as the server tests it: ASCII only.
  predicate ServerRule(s: string) {
    MustQuote(s)
  }

  // White space in the sense of Unicode.
  predicate UnicodeRule(s: string) {
    MustQuote(s) || exists i :: 0 <= i < |s| && IsSpace(s[i])
  }

  lemma NoSpaceTrims(s: string)
    requires forall i :: 0 <= i < |s| ==> !IsSpace(s[i])
    ensures Trim(s) == s
  {
  }

  /** Were all Unicode white space quoted, only the word NULL would be lost. */
  lemma RoundTripUnicode(items: seq<Item>)
    ensures Parsed(TextElement, Print(UnicodeRule, items)) == Some(List(ValuesOf(items)))
       <==> forall i :: 0 <= i < |items| && items[i].Some? ==> !IsNullWord(items[i].value)
  {
    RoundTrip(UnicodeRule, items);
    forall i | 0 <= i < |items|
      ensures Faithful(UnicodeRule, items[i]) <==> (items[i].Some? ==> !IsNullWord(items[i].value))
    {
      if items[i].Some? && !UnicodeRule(items[i].value) {
        NoSpaceTrims(items[i].value);
      }
    }
  }

  /** Under the server's rule a list comes back exactly when no string is the word
      NULL, or starts or ends with a space the server does not quote. */
  lemma RoundTripServer(items: seq<Item>)
    ensures Parsed(TextElement, Print(ServerRule, items)) == Some(List(ValuesOf(items)))
       <==> forall i :: 0 <= i < |items| && items[i].Some? ==>
              && !IsNullWord(items[i].value)
              && (MustQuote(items[i].value) || Trim(items[i].value) == items[i].value)
  {
    RoundTrip(ServerRule, items);
    assert forall i :: 0 <= i < |items| ==> (Faithful(ServerRule, items[i]) <==>
      (items[i].Some? ==>
         !IsNullWord(items[i].value) && (MustQuote(items[i].value) || Trim(items[i].value) == items[i].value)));
  }

  /** The word NULL comes back as null though it was printed in quotes. */
  lemma QuotedNullIsLost(rule: string -> bool, word: string)
    requires Quotes(rule) && IsNullWord(word)
    ensures PrintItem(rule, Some(word))[0] == '"'
    ensures Parsed(TextElement, Print(rule, [Some(word)])) == Some(List([Null]))
  {
    var items := [Some(word)];
    assert MustQuote(word);
    ParsePrinted(rule, items);
    ElementsAre(AllSeen(rule, items));
    assert ElementsOf(TextElement, AllSeen(rule, items)).value == [Null];
  }

  /** A list of one no-break space comes back empty. */
  lemma NoBreakSpaceIsLost()
    ensures Parsed(TextElement, Print(ServerRule, [Some("\U{00A0}")])) == Some(List([]))
  {
    assert !MustQuote("\U{00A0}");
    ParsePrinted(ServerRule, [Some("\U{00A0}")]);
  }
}
