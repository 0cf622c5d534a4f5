/** The Content-Disposition tokenizer (RFC 6266 section 4.1), over the bytes of the
    header value. */
module Disposition {
  datatype Param = Param(name: string, value: string)

  predicate IsWs(c: char) {
    c == ' ' || c == '\t'
  }

  // What trimming a bare token removes at its ends.
  predicate IsTrimmed(c: char) {
    c in {' ', '\t', '\n', '\r', '\U{0B}', '\U{0C}'}
  }

  predicate EndsName(c: char) {
    c == '=' || c == ';' || IsWs(c)
  }

  // ----- the grammar, as functions of the position -----

  function SkipWs(s: string, i: nat): (k: nat)
    requires i <= |s|
    ensures i <= k <= |s|
    decreases |s| - i
  {
    if i < |s| && IsWs(s[i]) then SkipWs(s, i + 1) else i
  }

  function Semicolon(s: string, i: nat): (k: nat)
    requires i <= |s|
    ensures i <= k <= |s|
    decreases |s| - i
  {
    if i < |s| && s[i] != ';' then Semicolon(s, i + 1) else i
  }

  function NameEnd(s: string, i: nat): (k: nat)
    requires i <= |s|
    ensures i <= k <= |s|
    decreases |s| - i
  {
    if i < |s| && !EndsName(s[i]) then NameEnd(s, i + 1) else i
  }

  // The text of a quoted-string (RFC 9110 section 5.6.4) after its opening quote, and
  // the position after its closing one; the end of input also closes it.
  function Quoted(s: string, i: nat): (r: (string, nat))
    requires i <= |s|
    ensures i <= r.1 <= |s|
    decreases |s| - i
  {
    if i == |s| then ("", i)
    else if s[i] == '\"' then ("", i + 1)
    else if s[i] == '\\' && i + 1 < |s| then
      var (rest, end) := Quoted(s, i + 2);
      ([s[i + 1]] + rest, end)
    else
      var (rest, end) := Quoted(s, i + 1);
      ([s[i]] + rest, end)
  }

  function TrimStart(t: string): string {
    if t != "" && IsTrimmed(t[0]) then TrimStart(t[1..]) else t
  }

  function TrimEnd(t: string): string {
    if t != "" && IsTrimmed(t[|t| - 1]) then TrimEnd(t[..|t| - 1]) else t
  }

  function Value(s: string, i: nat): (r: (string, nat))
    requires i <= |s|
    ensures i <= r.1 <= |s|
  {
    if i < |s| && s[i] == '\"' then Quoted(s, i + 1)
    else
      var end := Semicolon(s, i);
      (TrimEnd(TrimStart(s[i..end])), end)
  }

  function Params(s: string, i: nat): seq<Param>
    requires i <= |s|
    decreases |s| - i
  {
    if i == |s| then []
    else if s[i] != ';' then Params(s, i + 1)
    else
      var nameStart := SkipWs(s, i + 1);
      var nameEnd := NameEnd(s, nameStart);
      if nameStart == nameEnd then Params(s, nameEnd)
      else
        var eq := SkipWs(s, nameEnd);
        if eq == |s| || s[eq] != '=' then Params(s, eq)
        else
          var (value, end) := Value(s, SkipWs(s, eq + 1));
          [Param(s[nameStart..nameEnd], value)] + Params(s, end)
  }

  function Parsed(s: string): seq<Param> {
    Params(s, Semicolon(s, SkipWs(s, 0)))
  }

  // ----- the code -----

  method SkipSpaces(s: string, from: nat) returns (i: nat)
    requires from <= |s|
    ensures i == SkipWs(s, from)
  {
    i := from;
    while i < |s| && IsWs(s[i])
      invariant from <= i <= |s| && SkipWs(s, i) == SkipWs(s, from)
    {
      i := i + 1;
    }
  }

  method ToSemicolon(s: string, from: nat) returns (i: nat)
    requires from <= |s|
    ensures i == Semicolon(s, from)
  {
    i := from;
    while i < |s| && s[i] != ';'
      invariant from <= i <= |s| && Semicolon(s, i) == Semicolon(s, from)
    {
      i := i + 1;
    }
  }

  lemma Regroup(buf: string, c: char, rest: string)
    ensures buf + ([c] + rest) == (buf + [c]) + rest
  {
  }

  // One character of a quoted-string.
  lemma QuotedOne(s: string, i: nat)
    requires i < |s| && s[i] != '\"'
    ensures var escaped := s[i] == '\\' && i + 1 < |s|;
            var c, next := if escaped then s[i + 1] else s[i], if escaped then i + 2 else i + 1;
            Quoted(s, i) == ([c] + Quoted(s, next).0, Quoted(s, next).1)
  {
  }

  method ReadQuoted(s: string, from: nat) returns (buf: string, i: nat)
    requires from <= |s|
    ensures (buf, i) == Quoted(s, from)
  {
    buf, i := "", from;
    while i < |s| && s[i] != '\"'
      invariant from <= i <= |s|
      invariant buf + Quoted(s, i).0 == Quoted(s, from).0 && Quoted(s, i).1 == Quoted(s, from).1
    {
      QuotedOne(s, i);
      if s[i] == '\\' && i + 1 < |s| {
        Regroup(buf, s[i + 1], Quoted(s, i + 2).0);
        buf := buf + [s[i + 1]];
        i := i + 2;
      } else {
        Regroup(buf, s[i], Quoted(s, i + 1).0);
        buf := buf + [s[i]];
        i := i + 1;
      }
    }
    assert buf + "" == buf;
    if i < |s| {
      i := i + 1;
    }
  }

  method ReadName(s: string, from: nat) returns (i: nat)
    requires from <= |s|
    ensures i == NameEnd(s, from)
  {
    i := from;
    while i < |s| && s[i] != '=' && s[i] != ';' && !IsWs(s[i])
      invariant from <= i <= |s| && NameEnd(s, i) == NameEnd(s, from)
    {
      i := i + 1;
    }
  }

  method ReadValue(s: string, from: nat) returns (value: string, i: nat)
    requires from <= |s|
    ensures (value, i) == Value(s, from)
  {
    if from < |s| && s[from] == '\"' {
      value, i := ReadQuoted(s, from + 1);
    } else {
      i := ToSemicolon(s, from);
      value := TrimEnd(TrimStart(s[from..i]));
    }
  }

  // One parameter, or what stands in its place, from a semicolon on.
  method ReadParam(s: string, from: nat) returns (p: seq<Param>, i: nat)
    requires from < |s| && s[from] == ';'
    ensures from < i <= |s| && p + Params(s, i) == Params(s, from)
  {
    var nameStart := SkipSpaces(s, from + 1);
    var nameEnd := ReadName(s, nameStart);
    if nameStart == nameEnd {
      return [], nameEnd;
    }
    var eq := SkipSpaces(s, nameEnd);
    if eq >= |s| || s[eq] != '=' {
      return [], eq;
    }
    var valueStart := SkipSpaces(s, eq + 1);
    var value;
    value, i := ReadValue(s, valueStart);
    p := [Param(s[nameStart..nameEnd], value)];
  }

  /** The index-driven loop ends on every input and computes the grammar's parameters. */
  method ParseParams(s: string) returns (out: seq<Param>)
    ensures out == Parsed(s)
  {
    out := [];
    var i := SkipSpaces(s, 0);
    i := ToSemicolon(s, i);
    ghost var from := i;
    while i < |s|
      invariant from <= i <= |s|
      invariant out + Params(s, i) == Params(s, from)
      decreases |s| - i
    {
      if s[i] != ';' {
        i := i + 1;
        continue;
      }
      var p;
      p, i := ReadParam(s, i);
      assert out + (p + Params(s, i)) == (out + p) + Params(s, i);
      out := out + p;
    }
    assert out + [] == out;
  }

  // ----- rendering, and the round trip -----

  predicate IsToken(name: string) {
    name != "" && forall k :: 0 <= k < |name| ==> name[k] !in {'=', ';', ' ', '\t'}
  }

  predicate IsBlank(pad: string) {
    forall k :: 0 <= k < |pad| ==> pad[k] == ' ' || pad[k] == '\t'
  }

  predicate IsSpace(c: char) {
    c == ' ' || '\t' <= c <= '\r'
  }

  // A value that can stand without quotes.
  predicate IsPlain(v: string) {
    ';' !in v && (v != "" ==> v[0] != '\"' && !IsSpace(v[0]) && !IsSpace(v[|v| - 1]))
  }

  function Escape(v: string): string {
    if v == "" then ""
    else (if v[0] == '\"' || v[0] == '\\' then ['\\', v[0]] else [v[0]]) + Escape(v[1..])
  }

  // What follows a semicolon: a parameter in quotes with something after them, one without
  // quotes, a name without a value, or nothing.
  datatype Piece =
    | InQuotes(before: string, name: string, mid: string, late: string, value: string, tail: string)
    | Plain(before: string, name: string, mid: string, late: string, value: string, after: string)
    | NoValue(before: string, name: string, after: string)
    | Nothing(before: string)

  predicate IsProper(p: Piece) {
    && IsBlank(p.before)
    && match p
       case InQuotes(_, name, mid, late, _, tail) => IsToken(name) && IsBlank(mid) && IsBlank(late) && ';' !in tail
       case Plain(_, name, mid, late, value, after) =>
         IsToken(name) && IsBlank(mid) && IsBlank(late) && IsPlain(value) && IsBlank(after)
       case NoValue(_, name, after) => IsToken(name) && IsBlank(after)
       case Nothing(_) => true
  }

  function RenderValue(p: Piece): string
    requires p.InQuotes? || p.Plain?
  {
    if p.InQuotes? then "\"" + ((Escape(p.value) + "\"") + p.tail) else p.value + p.after
  }

  function RenderRest(p: Piece): string {
    match p
    case InQuotes(_, name, mid, late, _, _) => RenderParam(name, mid, late + RenderValue(p))
    case Plain(_, name, mid, late, _, _) => RenderParam(name, mid, late + RenderValue(p))
    case NoValue(_, name, after) => name + after
    case Nothing(_) => ""
  }

  function RenderParam(name: string, mid: string, more: string): string {
    name + (mid + ("=" + more))
  }

  function RenderOne(p: Piece): string {
    ";" + (p.before + RenderRest(p))
  }

  function RenderAll(ps: seq<Piece>): string {
    if ps == [] then "" else RenderOne(ps[0]) + RenderAll(ps[1..])
  }

  // The parameters that were meant.
  function Meant(ps: seq<Piece>): seq<Param> {
    if ps == [] then [] else MeantBy(ps[0]) + Meant(ps[1..])
  }

  function MeantBy(p: Piece): seq<Param> {
    match p
    case InQuotes(_, name, _, _, value, _) => [Param(name, value)]
    case Plain(_, name, _, _, value, _) => [Param(name, value)]
    case _ => []
  }

  // t stands in s at position i.
  predicate StandsAt(t: string, s: string, i: nat) {
    i + |t| <= |s| && forall k :: 0 <= k < |t| ==> s[i + k] == t[k]
  }

  lemma StandsSplit(t: string, u: string, s: string, i: nat)
    requires StandsAt(t + u, s, i)
    ensures StandsAt(t, s, i) && StandsAt(u, s, i + |t|)
  {
    forall k | 0 <= k < |t| ensures s[i + k] == t[k] {
      assert (t + u)[k] == t[k];
    }
    forall k | 0 <= k < |u| ensures s[i + |t| + k] == u[k] {
      assert (t + u)[|t| + k] == u[k];
    }
  }

  lemma StandsChar(t: string, s: string, i: nat, k: nat)
    requires StandsAt(t, s, i) && k < |t|
    ensures s[i + k] == t[k]
  {
  }

  lemma {:induction false} NameIsRead(name: string, s: string, i: nat, k: nat)
    requires IsToken(name) && StandsAt(name, s, i) && k <= |name|
    requires i + |name| < |s| ==> EndsName(s[i + |name|])
    ensures NameEnd(s, i + k) == i + |name|
    decreases |name| - k
  {
    if k < |name| {
      StandsChar(name, s, i, k);
      NameIsRead(name, s, i, k + 1);
    }
  }

  lemma {:induction false} BlankIsPassed(pad: string, s: string, i: nat, k: nat)
    requires IsBlank(pad) && StandsAt(pad, s, i) && k <= |pad|
    ensures SkipWs(s, i + k) == SkipWs(s, i + |pad|)
    decreases |pad| - k
  {
    if k < |pad| {
      StandsChar(pad, s, i, k);
      BlankIsPassed(pad, s, i, k + 1);
    }
  }

  // Blanks end where no blank follows.
  lemma BlankIsSkipped(pad: string, s: string, i: nat)
    requires IsBlank(pad) && StandsAt(pad, s, i)
    requires i + |pad| < |s| ==> !IsWs(s[i + |pad|])
    ensures SkipWs(s, i) == i + |pad|
  {
    BlankIsPassed(pad, s, i, 0);
  }

  // Position i is where a piece begins, or the end.
  predicate AtPiece(s: string, i: nat) {
    i <= |s| && (i < |s| ==> s[i] == ';')
  }

  lemma {:induction false} NextSemicolon(t: string, s: string, i: nat, k: nat)
    requires ';' !in t && StandsAt(t, s, i) && k <= |t| && AtPiece(s, i + |t|)
    ensures Semicolon(s, i + k) == i + |t|
    decreases |t| - k
  {
    if k < |t| {
      StandsChar(t, s, i, k);
      NextSemicolon(t, s, i, k + 1);
    }
  }

  // Nothing between the positions begins a piece.
  predicate NoPiece(s: string, i: nat, end: nat) {
    i <= end <= |s| && forall k :: i <= k < end ==> s[k] != ';'
  }

  lemma {:induction false} SkipToPiece(s: string, i: nat, end: nat)
    requires NoPiece(s, i, end)
    ensures Params(s, i) == Params(s, end)
    decreases end - i
  {
    if i < end {
      SkipToPiece(s, i + 1, end);
    }
  }

  lemma TailHasNoPiece(tail: string, s: string, i: nat)
    requires ';' !in tail && StandsAt(tail, s, i)
    ensures NoPiece(s, i, i + |tail|)
  {
    forall k | i <= k < i + |tail| ensures s[k] != ';' {
      StandsChar(tail, s, i, k - i);
    }
  }

  lemma {:induction false} TrimmedStart(pad: string)
    requires IsBlank(pad)
    ensures TrimStart(pad) == ""
  {
    if pad != "" {
      TrimmedStart(pad[1..]);
    }
  }

  lemma {:induction false} TrimmedEnd(v: string, pad: string)
    requires IsBlank(pad) && (v != "" ==> !IsSpace(v[|v| - 1]))
    ensures TrimEnd(v + pad) == v
  {
    if pad == "" {
      assert v + pad == v;
    } else {
      assert (v + pad)[..|v + pad| - 1] == v + pad[..|pad| - 1];
      TrimmedEnd(v, pad[..|pad| - 1]);
    }
  }

  lemma PlainIsTrimmed(v: string, pad: string)
    requires IsPlain(v) && IsBlank(pad)
    ensures TrimEnd(TrimStart(v + pad)) == v
  {
    if v == "" {
      assert v + pad == pad;
      TrimmedStart(pad);
    } else {
      TrimmedEnd(v, pad);
    }
  }

  lemma {:induction false} EscapedIsRead(v: string, s: string, i: nat)
    requires StandsAt(Escape(v) + "\"", s, i)
    ensures Quoted(s, i) == (v, i + |Escape(v)| + 1)
  {
    if v == "" {
      assert Escape(v) + "\"" == "\"";
      StandsChar("\"", s, i, 0);
    } else {
      var c := if v[0] == '\"' || v[0] == '\\' then ['\\', v[0]] else [v[0]];
      assert Escape(v) + "\"" == c + (Escape(v[1..]) + "\"");
      StandsSplit(c, Escape(v[1..]) + "\"", s, i);
      StandsChar(c, s, i, 0);
      StandsChar(c, s, i, |c| - 1);
      EscapedIsRead(v[1..], s, i + |c|);
      assert v == [v[0]] + v[1..];
    }
  }

  // ----- where the parts of a piece stand -----

  // The parts of a parameter up to its value, at these positions.
  predicate HeadLaid(before: string, name: string, mid: string, late: string, s: string, i: nat,
                     nameStart: nat, nameEnd: nat, eq: nat, valueStart: nat) {
    && i < eq < |s| && s[i] == ';' && s[eq] == '='
    && nameStart == i + 1 + |before| && nameEnd == nameStart + |name| && eq == nameEnd + |mid|
    && valueStart == eq + 1 + |late|
    && StandsAt(before, s, i + 1) && StandsAt(name, s, nameStart) && StandsAt(mid, s, nameEnd)
    && StandsAt(late, s, eq + 1)
  }

  lemma SplitFirst(c: char, rest: string, s: string, i: nat)
    requires StandsAt([c] + rest, s, i)
    ensures i < |s| && s[i] == c && StandsAt(rest, s, i + 1)
  {
    StandsSplit([c], rest, s, i);
    StandsChar([c], s, i, 0);
  }

  lemma PieceStands(before: string, name: string, rest: string, s: string, i: nat)
    requires StandsAt(";" + (before + (name + rest)), s, i)
    ensures i < |s| && s[i] == ';' && StandsAt(before, s, i + 1) && StandsAt(name, s, i + 1 + |before|)
    ensures StandsAt(rest, s, i + 1 + |before| + |name|)
  {
    SplitFirst(';', before + (name + rest), s, i);
    StandsSplit(before, name + rest, s, i + 1);
    StandsSplit(name, rest, s, i + 1 + |before|);
  }

  lemma EqualsStands(mid: string, late: string, value: string, s: string, i: nat)
    requires StandsAt(mid + ("=" + (late + value)), s, i)
    ensures StandsAt(mid, s, i) && i + |mid| < |s| && s[i + |mid|] == '='
    ensures StandsAt(late, s, i + |mid| + 1) && StandsAt(value, s, i + |mid| + 1 + |late|)
  {
    StandsSplit(mid, "=" + (late + value), s, i);
    SplitFirst('=', late + value, s, i + |mid|);
    StandsSplit(late, value, s, i + |mid| + 1);
  }

  lemma LayHead(before: string, name: string, mid: string, late: string, value: string, s: string, i: nat)
      returns (nameStart: nat, nameEnd: nat, eq: nat, valueStart: nat)
    requires StandsAt(";" + (before + RenderParam(name, mid, late + value)), s, i)
    ensures HeadLaid(before, name, mid, late, s, i, nameStart, nameEnd, eq, valueStart)
    ensures StandsAt(value, s, valueStart)
    ensures valueStart + |value| == i + |";" + (before + RenderParam(name, mid, late + value))|
  {
    nameStart := i + 1 + |before|;
    nameEnd := nameStart + |name|;
    eq := nameEnd + |mid|;
    valueStart := eq + 1 + |late|;
    PieceStands(before, name, mid + ("=" + (late + value)), s, i);
    EqualsStands(mid, late, value, s, nameEnd);
  }

  // ----- what the parser makes of them -----

  // The name is read from a laid head, up to the equals sign.
  lemma HeadIsRead(before: string, name: string, mid: string, late: string, s: string, i: nat,
                   nameStart: nat, nameEnd: nat, eq: nat, valueStart: nat)
    requires HeadLaid(before, name, mid, late, s, i, nameStart, nameEnd, eq, valueStart)
    requires IsBlank(before) && IsToken(name) && IsBlank(mid) && IsBlank(late)
    ensures SkipWs(s, i + 1) == nameStart && NameEnd(s, nameStart) == nameEnd && nameStart < nameEnd
    ensures SkipWs(s, nameEnd) == eq && SkipWs(s, eq + 1) == SkipWs(s, valueStart)
    ensures s[nameStart..nameEnd] == name
  {
    StandsChar(name, s, nameStart, 0);
    BlankIsSkipped(before, s, i + 1);
    if mid != "" {
      StandsChar(mid, s, nameEnd, 0);
    }
    NameIsRead(name, s, nameStart, 0);
    BlankIsSkipped(mid, s, nameEnd);
    BlankIsPassed(late, s, eq + 1, 0);
  }

  // One turn of the grammar, from a semicolon.
  lemma ParamAt(s: string, i: nat, nameStart: nat, nameEnd: nat, eq: nat, value: string, end: nat, finish: nat)
    requires i < |s| && s[i] == ';' && SkipWs(s, i + 1) == nameStart && NameEnd(s, nameStart) == nameEnd
    requires nameStart < nameEnd && SkipWs(s, nameEnd) == eq < |s| && s[eq] == '='
    requires Value(s, SkipWs(s, eq + 1)) == (value, end) && NoPiece(s, end, finish)
    ensures Params(s, i) == [Param(s[nameStart..nameEnd], value)] + Params(s, finish)
  {
    SkipToPiece(s, end, finish);
  }

  lemma NoParamAt(s: string, i: nat, nameStart: nat, nameEnd: nat, eq: nat)
    requires i < |s| && s[i] == ';' && SkipWs(s, i + 1) == nameStart && NameEnd(s, nameStart) == nameEnd
    requires nameStart < nameEnd && SkipWs(s, nameEnd) == eq && AtPiece(s, eq)
    ensures Params(s, i) == Params(s, eq)
  {
  }

  // ----- values -----

  lemma QuotesAreRead(value: string, tail: string, s: string, i: nat) returns (end: nat)
    requires StandsAt("\"" + ((Escape(value) + "\"") + tail), s, i) && ';' !in tail
    ensures SkipWs(s, i) == i && Value(s, i) == (value, end)
    ensures NoPiece(s, end, i + |"\"" + ((Escape(value) + "\"") + tail)|)
  {
    var quoted := Escape(value) + "\"";
    SplitFirst('\"', quoted + tail, s, i);
    StandsSplit(quoted, tail, s, i + 1);
    EscapedIsRead(value, s, i + 1);
    end := i + 1 + |quoted|;
    TailHasNoPiece(tail, s, end);
  }

  lemma PlainIsRead(value: string, after: string, s: string, i: nat)
    requires IsPlain(value) && value != "" && IsBlank(after) && StandsAt(value + after, s, i)
    requires AtPiece(s, i + |value + after|)
    ensures SkipWs(s, i) == i && Value(s, i) == (value, i + |value + after|)
  {
    var text := value + after;
    StandsChar(text, s, i, 0);
    assert text[0] == value[0];
    forall k | 0 <= k < |text| ensures text[k] != ';' {
      assert k >= |value| ==> text[k] == after[k - |value|];
      assert k < |value| ==> text[k] in value;
    }
    NextSemicolon(text, s, i, 0);
    PlainIsTrimmed(value, after);
    assert s[i..i + |text|] == text;
  }

  lemma NothingIsRead(after: string, s: string, i: nat)
    requires IsBlank(after) && StandsAt(after, s, i) && AtPiece(s, i + |after|)
    ensures Value(s, SkipWs(s, i)) == ("", i + |after|)
  {
    BlankIsSkipped(after, s, i);
  }

  // The value of a parameter, and where its reading stops.
  lemma ValueIsRead(p: Piece, s: string, i: nat) returns (end: nat)
    requires (p.InQuotes? || p.Plain?) && IsProper(p)
    requires StandsAt(RenderValue(p), s, i) && AtPiece(s, i + |RenderValue(p)|)
    ensures Value(s, SkipWs(s, i)) == (p.value, end) && NoPiece(s, end, i + |RenderValue(p)|)
  {
    if p.InQuotes? {
      end := QuotesAreRead(p.value, p.tail, s, i);
    } else {
      end := i + |RenderValue(p)|;
      if p.value != "" {
        PlainIsRead(p.value, p.after, s, i);
      } else {
        assert RenderValue(p) == p.after;
        NothingIsRead(p.after, s, i);
      }
    }
  }

  // ----- pieces -----

  lemma ParamIsRead(p: Piece, s: string, i: nat, finish: nat)
    requires (p.InQuotes? || p.Plain?) && IsProper(p) && StandsAt(RenderOne(p), s, i)
    requires finish == i + |RenderOne(p)| && AtPiece(s, finish)
    ensures Params(s, i) == [Param(p.name, p.value)] + Params(s, finish)
  {
    var nameStart, nameEnd, eq, valueStart := LayHead(p.before, p.name, p.mid, p.late, RenderValue(p), s, i);
    LaidIsRead(p, s, i, nameStart, nameEnd, eq, valueStart, finish);
  }

  lemma LaidIsRead(p: Piece, s: string, i: nat, nameStart: nat, nameEnd: nat, eq: nat, valueStart: nat, finish: nat)
    requires (p.InQuotes? || p.Plain?) && IsProper(p) && AtPiece(s, finish)
    requires HeadLaid(p.before, p.name, p.mid, p.late, s, i, nameStart, nameEnd, eq, valueStart)
    requires StandsAt(RenderValue(p), s, valueStart) && finish == valueStart + |RenderValue(p)|
    ensures Params(s, i) == [Param(p.name, p.value)] + Params(s, finish)
  {
    HeadIsRead(p.before, p.name, p.mid, p.late, s, i, nameStart, nameEnd, eq, valueStart);
    var end := ValueIsRead(p, s, valueStart);
    ParamAt(s, i, nameStart, nameEnd, eq, p.value, end, finish);
  }

  lemma NoValueIsSkipped(p: Piece, s: string, i: nat)
    requires p.NoValue? && IsProper(p) && StandsAt(RenderOne(p), s, i) && AtPiece(s, i + |RenderOne(p)|)
    ensures Params(s, i) == Params(s, i + |RenderOne(p)|)
  {
    PieceStands(p.before, p.name, p.after, s, i);
    NameIsSkipped(p.before, p.name, p.after, s, i);
  }

  lemma NameIsSkipped(before: string, name: string, after: string, s: string, i: nat)
    requires IsBlank(before) && IsToken(name) && IsBlank(after) && i < |s| && s[i] == ';'
    requires StandsAt(before, s, i + 1) && StandsAt(name, s, i + 1 + |before|)
    requires StandsAt(after, s, i + 1 + |before| + |name|) && AtPiece(s, i + 1 + |before| + |name| + |after|)
    ensures Params(s, i) == Params(s, i + 1 + |before| + |name| + |after|)
  {
    var nameStart := i + 1 + |before|;
    var nameEnd := nameStart + |name|;
    StandsChar(name, s, nameStart, 0);
    BlankIsSkipped(before, s, i + 1);
    if after != "" {
      StandsChar(after, s, nameEnd, 0);
    }
    NameIsRead(name, s, nameStart, 0);
    BlankIsSkipped(after, s, nameEnd);
    NoParamAt(s, i, nameStart, nameEnd, nameEnd + |after|);
  }

  lemma NothingIsSkipped(p: Piece, s: string, i: nat)
    requires p.Nothing? && IsProper(p) && StandsAt(RenderOne(p), s, i) && AtPiece(s, i + |RenderOne(p)|)
    ensures Params(s, i) == Params(s, i + |RenderOne(p)|)
  {
    assert p.before + "" == p.before;
    SplitFirst(';', p.before, s, i);
    BlankIsSkipped(p.before, s, i + 1);
  }

  lemma OneIsRead(p: Piece, s: string, i: nat, finish: nat)
    requires IsProper(p) && StandsAt(RenderOne(p), s, i) && finish == i + |RenderOne(p)| && AtPiece(s, finish)
    ensures Params(s, i) == MeantBy(p) + Params(s, finish)
  {
    if p.NoValue? {
      NoValueIsSkipped(p, s, i);
    } else if p.Nothing? {
      NothingIsSkipped(p, s, i);
    } else {
      ParamIsRead(p, s, i, finish);
    }
  }

  // The first piece and the others.
  lemma PiecesStand(ps: seq<Piece>, s: string, i: nat) returns (finish: nat)
    requires ps != [] && StandsAt(RenderAll(ps), s, i) && i + |RenderAll(ps)| == |s|
    ensures finish == i + |RenderOne(ps[0])| && StandsAt(RenderOne(ps[0]), s, i) && AtPiece(s, finish)
    ensures StandsAt(RenderAll(ps[1..]), s, finish) && finish + |RenderAll(ps[1..])| == |s|
  {
    finish := i + |RenderOne(ps[0])|;
    StandsSplit(RenderOne(ps[0]), RenderAll(ps[1..]), s, i);
    RenderedBegins(ps[1..]);
    if ps[1..] != [] {
      StandsChar(RenderAll(ps[1..]), s, finish, 0);
    }
  }

  lemma {:induction false} AllAreRead(ps: seq<Piece>, s: string, i: nat)
    requires forall k :: 0 <= k < |ps| ==> IsProper(ps[k])
    requires StandsAt(RenderAll(ps), s, i) && i + |RenderAll(ps)| == |s|
    ensures Params(s, i) == Meant(ps)
  {
    if ps != [] {
      var finish := PiecesStand(ps, s, i);
      OneIsRead(ps[0], s, i, finish);
      AllAreRead(ps[1..], s, finish);
    }
  }

  lemma {:induction false} TypeIsSkipped(kind: string, rest: string, i: nat)
    requires ';' !in kind && i <= |kind| && (rest == "" || rest[0] == ';')
    ensures Semicolon(kind + rest, i) == |kind|
    decreases |kind| - i
  {
    if i < |kind| {
      assert (kind + rest)[i] == kind[i];
      TypeIsSkipped(kind, rest, i + 1);
    }
  }

  lemma {:induction false} SpacesStayInType(kind: string, rest: string, i: nat)
    requires ';' !in kind && i <= |kind| && (rest == "" || rest[0] == ';')
    ensures SkipWs(kind + rest, i) <= |kind|
    decreases |kind| - i
  {
    if i < |kind| {
      SpacesStayInType(kind, rest, i + 1);
    }
  }

  /** Parsing what was rendered gives back every name and value, in order: in quotes, with
      quotes, backslashes, semicolons and blanks inside, or without; with blanks anywhere; and
      without the names that have no value and what follows closing quotes. */
  lemma RoundTrip(kind: string, ps: seq<Piece>)
    requires ';' !in kind && forall k :: 0 <= k < |ps| ==> IsProper(ps[k])
    ensures Parsed(kind + RenderAll(ps)) == Meant(ps)
  {
    RenderedBegins(ps);
    TypeIsPassed(kind, RenderAll(ps));
    RenderedStands(kind, RenderAll(ps));
    AllAreRead(ps, kind + RenderAll(ps), |kind|);
  }

  lemma RenderedBegins(ps: seq<Piece>)
    ensures if ps == [] then RenderAll(ps) == "" else RenderAll(ps) != "" && RenderAll(ps)[0] == ';'
  {
    if ps != [] {
      assert RenderOne(ps[0])[0] == ';';
    }
  }

  lemma RenderedStands(kind: string, rest: string)
    ensures StandsAt(rest, kind + rest, |kind|)
  {
    forall k | 0 <= k < |rest| ensures (kind + rest)[|kind| + k] == rest[k] {
    }
  }

  // ----- a quote that is never closed -----

  lemma {:induction false} UnclosedIsRead(v: string, s: string, i: nat)
    requires StandsAt(Escape(v), s, i) && i + |Escape(v)| == |s|
    ensures Quoted(s, i) == (v, |s|)
  {
    if v != "" {
      var c := if v[0] == '\"' || v[0] == '\\' then ['\\', v[0]] else [v[0]];
      assert Escape(v) == c + Escape(v[1..]);
      StandsSplit(c, Escape(v[1..]), s, i);
      StandsChar(c, s, i, 0);
      StandsChar(c, s, i, |c| - 1);
      UnclosedIsRead(v[1..], s, i + |c|);
      assert v == [v[0]] + v[1..];
    }
  }

  /** The end of the header closes a quote. */
  lemma UnclosedQuoteEndsHeader(kind: string, name: string, value: string)
    requires ';' !in kind && IsToken(name)
    ensures Parsed(kind + (";" + (name + ("=\"" + Escape(value))))) == [Param(name, value)]
  {
    var text := ";" + ("" + RenderParam(name, "", "" + ("\"" + Escape(value))));
    assert text == ";" + (name + ("=\"" + Escape(value)));
    RenderedStands(kind, text);
    TypeIsPassed(kind, text);
    UnclosedParam(name, value, kind + text, |kind|);
  }

  lemma UnclosedParam(name: string, value: string, s: string, i: nat)
    requires IsToken(name) && StandsAt(";" + ("" + RenderParam(name, "", "" + ("\"" + Escape(value)))), s, i)
    requires |s| == i + 3 + |name| + |Escape(value)|
    ensures Params(s, i) == [Param(name, value)]
  {
    var nameStart, nameEnd, eq, valueStart := LayHead("", name, "", "", "\"" + Escape(value), s, i);
    HeadIsRead("", name, "", "", s, i, nameStart, nameEnd, eq, valueStart);
    UnclosedValue(value, s, valueStart);
    ParamAt(s, i, nameStart, nameEnd, eq, value, |s|, |s|);
  }

  lemma UnclosedValue(value: string, s: string, i: nat)
    requires StandsAt("\"" + Escape(value), s, i) && |s| == i + 1 + |Escape(value)|
    ensures SkipWs(s, i) == i && Value(s, i) == (value, |s|)
  {
    SplitFirst('\"', Escape(value), s, i);
    UnclosedIsRead(value, s, i + 1);
  }

  lemma TypeIsPassed(kind: string, rest: string)
    requires ';' !in kind && (rest == "" || rest[0] == ';')
    ensures Parsed(kind + rest) == Params(kind + rest, |kind|)
  {
    SpacesStayInType(kind, rest, 0);
    TypeIsSkipped(kind, rest, SkipWs(kind + rest, 0));
  }
}
