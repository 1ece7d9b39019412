/**
 The regular-expression matcher of user/grep.c and grep's line loop. C strings are
 sequences of characters; the terminating NUL is the end of the sequence.
 */
module Grep {

  // ----- what a pattern means -----

  datatype Atom = One(c: char) | Many(c: char) | AtEnd

  /** The items of a pattern: `x*`, a final `$`, or a single character. */
  function Atoms(re: string): (r: seq<Atom>) {
    if re == "" then []
    else if |re| >= 2 && re[1] == '*' then [Many(re[0])] + Atoms(re[2..])
    else if re == "$" then [AtEnd]
    else [One(re[0])] + Atoms(re[1..])
  }

  predicate Fits(c: char, x: char) {
    c == '.' || c == x
  }

  /** One item matches exactly the piece `s` of the text. */
  predicate Takes(a: Atom, s: string) {
    match a
    case One(c) => |s| == 1 && Fits(c, s[0])
    case Many(c) => forall i :: 0 <= i < |s| ==> Fits(c, s[i])
    case AtEnd => s == ""
  }

  function Concat(pieces: seq<string>): (s: string) {
    if pieces == [] then "" else pieces[0] + Concat(pieces[1..])
  }

  /** The text is the pieces matched by the items, then a rest; `$` leaves no rest. */
  ghost predicate Split(atoms: seq<Atom>, pieces: seq<string>, rest: string, text: string) {
    && |pieces| == |atoms|
    && (forall i :: 0 <= i < |atoms| ==> Takes(atoms[i], pieces[i]))
    && text == Concat(pieces) + rest
    && (AtEnd in atoms ==> rest == "")
  }

  ghost predicate Here(atoms: seq<Atom>, text: string) {
    exists pieces, rest :: Split(atoms, pieces, rest, text)
  }

  /** A leading `^` anchors the match at the start; otherwise it may begin anywhere. */
  ghost predicate Matches(re: string, text: string) {
    if |re| > 0 && re[0] == '^' then Here(Atoms(re[1..]), text)
    else exists i :: 0 <= i <= |text| && Here(Atoms(re), text[i..])
  }

  // ----- unfolding the meaning item by item -----

  lemma HereNil(text: string)
    ensures Here([], text)
  {
    assert Split([], [], text, text);
  }

  lemma HereEnd(text: string)
    ensures Here([AtEnd], text) <==> text == ""
  {
    if Here([AtEnd], text) {
      var pieces, rest :| Split([AtEnd], pieces, rest, text);
      assert Takes([AtEnd][0], pieces[0]);
      assert AtEnd in [AtEnd];
      assert pieces[1..] == [] && Concat(pieces) == "";
    }
    if text == "" {
      var pieces := [""];
      assert pieces[1..] == [] && Concat(pieces) == "";
      assert Split([AtEnd], pieces, "", text);
    }
  }

  /** A split of a non-empty item list is a split-off piece and a split of the rest. */
  lemma SplitCons(a: Atom, atoms: seq<Atom>, piece: string, pieces: seq<string>, rest: string, tail: string)
    requires a != AtEnd && Takes(a, piece)
    ensures Split(atoms, pieces, rest, tail) ==> Split([a] + atoms, [piece] + pieces, rest, piece + tail)
  {
    if Split(atoms, pieces, rest, tail) {
      assert ([piece] + pieces)[1..] == pieces;
      assert piece + tail == Concat([piece] + pieces) + rest;
    }
  }

  lemma SplitUncons(a: Atom, atoms: seq<Atom>, pieces: seq<string>, rest: string, text: string)
    requires a != AtEnd && Split([a] + atoms, pieces, rest, text)
    ensures |pieces| > 0 && Takes(a, pieces[0]) && |pieces[0]| <= |text|
    ensures text[..|pieces[0]|] == pieces[0]
    ensures Split(atoms, pieces[1..], rest, text[|pieces[0]|..])
  {
    assert Takes(([a] + atoms)[0], pieces[0]);
    assert text == pieces[0] + (Concat(pieces[1..]) + rest);
    forall i | 0 <= i < |atoms| ensures Takes(atoms[i], pieces[1..][i]) {
      assert Takes(([a] + atoms)[i + 1], pieces[i + 1]);
    }
  }

  lemma HereOne(c: char, atoms: seq<Atom>, text: string)
    ensures Here([One(c)] + atoms, text) <==> text != "" && Fits(c, text[0]) && Here(atoms, text[1..])
  {
    if Here([One(c)] + atoms, text) {
      var pieces, rest :| Split([One(c)] + atoms, pieces, rest, text);
      SplitUncons(One(c), atoms, pieces, rest, text);
    }
    if text != "" && Fits(c, text[0]) && Here(atoms, text[1..]) {
      var pieces, rest :| Split(atoms, pieces, rest, text[1..]);
      SplitCons(One(c), atoms, text[..1], pieces, rest, text[1..]);
      assert text == text[..1] + text[1..];
    }
  }

  /** The first k characters can all be taken by `c*`. */
  predicate Prefix(c: char, text: string, k: nat) {
    k <= |text| && forall i :: 0 <= i < k ==> Fits(c, text[i])
  }

  lemma HereMany(c: char, atoms: seq<Atom>, text: string)
    ensures Here([Many(c)] + atoms, text) <==> exists k: nat :: Prefix(c, text, k) && Here(atoms, text[k..])
  {
    if Here([Many(c)] + atoms, text) {
      var pieces, rest :| Split([Many(c)] + atoms, pieces, rest, text);
      SplitUncons(Many(c), atoms, pieces, rest, text);
      var k := |pieces[0]|;
      assert forall i :: 0 <= i < k ==> text[i] == pieces[0][i];
      assert Prefix(c, text, k) && Here(atoms, text[k..]);
    }
    if k: nat :| Prefix(c, text, k) && Here(atoms, text[k..]) {
      var pieces, rest :| Split(atoms, pieces, rest, text[k..]);
      SplitCons(Many(c), atoms, text[..k], pieces, rest, text[k..]);
      assert text == text[..k] + text[k..];
    }
  }

  // ----- the matcher -----

  method Match(re: string, text: string) returns (b: bool)
    ensures b <==> Matches(re, text)
  {
    if |re| > 0 && re[0] == '^' {
      b := MatchHere(re[1..], text);
      return;
    }
    var i := 0;
    while true
      invariant 0 <= i <= |text|
      invariant forall j :: 0 <= j < i ==> !Here(Atoms(re), text[j..])
      decreases |text| - i
    {
      b := MatchHere(re, text[i..]);
      if b {
        return;
      }
      if i == |text| {
        break;
      }
      i := i + 1;
    }
  }

  method MatchHere(re: string, text: string) returns (b: bool)
    ensures b <==> Here(Atoms(re), text)
    decreases |re|, 0
  {
    if re == "" {
      HereNil(text);
      return true;
    }
    if |re| > 1 && re[1] == '*' {
      HereMany(re[0], Atoms(re[2..]), text);
      b := MatchStar(re[0], re[2..], text);
      return;
    }
    if re == "$" {
      HereEnd(text);
      return text == "";
    }
    HereOne(re[0], Atoms(re[1..]), text);
    if text != "" && (re[0] == '.' || re[0] == text[0]) {
      b := MatchHere(re[1..], text[1..]);
      return;
    }
    b := false;
  }

  method MatchStar(c: char, re: string, text: string) returns (b: bool)
    ensures b <==> exists k: nat :: Prefix(c, text, k) && Here(Atoms(re), text[k..])
    decreases |re|, 1
  {
    var i := 0;
    while true
      invariant Prefix(c, text, i)
      invariant forall j :: 0 <= j < i ==> !Here(Atoms(re), text[j..])
      decreases |text| - i
    {
      b := MatchHere(re, text[i..]);
      if b {
        return;
      }
      if i == |text| || !(text[i] == c || c == '.') {
        break;
      }
      i := i + 1;
    }
    assert forall k: nat :: Prefix(c, text, k) ==> k <= i;
  }

  // ----- the line loop -----

  const BUFSIZE: nat := 1024

  /** strchr(s, '\n') on a NUL-terminated string: where a newline comes before any NUL. */
  function LineEnd(s: string): (i: nat)
    ensures i <= |s|
    ensures i < |s| ==> s[i] == '\n' || s[i] == '\0'
    ensures forall j :: 0 <= j < i ==> s[j] != '\n' && s[j] != '\0'
  {
    if s == "" || s[0] == '\n' || s[0] == '\0' then 0 else 1 + LineEnd(s[1..])
  }

  predicate HasLine(s: string) {
    LineEnd(s) < |s| && s[LineEnd(s)] == '\n'
  }

  /** Complete lines that match, in order, up to the first NUL or the first line too long for the buffer. */
  ghost function Grepped(re: string, s: string): (out: string)
    decreases |s|
  {
    if !HasLine(s) || LineEnd(s) > BUFSIZE - 2 then "" else
      var i := LineEnd(s);
      (if Matches(re, s[..i]) then s[..i + 1] else "") + Grepped(re, s[i + 1..])
  }

  lemma {:induction false} LineEndOf(s: string, i: nat)
    requires i < |s| && (s[i] == '\n' || s[i] == '\0') && forall j :: 0 <= j < i ==> s[j] != '\n' && s[j] != '\0'
    ensures LineEnd(s) == i
  {
  }

  /** More input does not move a line end already seen. */
  lemma LineEndAppend(s: string, t: string)
    ensures LineEnd(s) < |s| ==> LineEnd(s + t) == LineEnd(s)
    ensures LineEnd(s) == |s| ==> LineEnd(s + t) >= |s|
  {
    var i := LineEnd(s);
    if i < |s| {
      LineEndOf(s + t, i);
    } else {
      assert forall j :: 0 <= j < |s| ==> (s + t)[j] == s[j];
    }
  }

  /** strchr(p, '\n') in the buffer: the newline, or m (where the NUL is) when none comes first. */
  method Strchr(buf: array<char>, p: nat, m: nat) returns (q: nat)
    requires p <= m < buf.Length && buf[m] == '\0'
    ensures p <= q <= m
    ensures HasLine(buf[p..m]) ==> q < m && q - p == LineEnd(buf[p..m])
    ensures !HasLine(buf[p..m]) ==> q == m
  {
    q := p;
    while buf[q] != '\0' && buf[q] != '\n'
      invariant p <= q <= m
      invariant forall j :: p <= j < q ==> buf[j] != '\n' && buf[j] != '\0'
      decreases m - q
    {
      q := q + 1;
    }
    ghost var s := buf[p..m];
    if q < m {
      LineEndOf(s, q - p);
      if buf[q] == '\0' {
        q := m;
      }
    } else {
      assert forall j :: 0 <= j < |s| ==> s[j] == buf[p + j];
    }
  }

  /** One line of the buffer, from p to the newline at q: matched as a C string, printed with its newline. */
  method OneLine(re: string, buf: array<char>, p: nat, q: nat) returns (out: string)
    requires p <= q < buf.Length && buf[q] == '\n'
    modifies buf
    ensures out == if Matches(re, old(buf[p..q])) then old(buf[p..q + 1]) else ""
    ensures forall j :: q < j < buf.Length ==> buf[j] == old(buf[j])
  {
    hide Matches;
    var line := buf[p..q];
    buf[q] := '\0';
    var b := Match(re, line);
    out := "";
    if b {
      buf[q] := '\n';
      assert buf[p..q + 1] == old(buf[p..q + 1]);
      out := buf[p..q + 1];
    }
  }

  /** grep's inner loop: print the matching lines of the buffer and stop at its incomplete tail. */
  method Lines(re: string, buf: array<char>, m: nat, ghost rest: string) returns (p: nat, out: string)
    requires m < buf.Length == BUFSIZE && buf[m] == '\0'
    modifies buf
    ensures p <= m && buf[p..m] == old(buf[p..m]) && !HasLine(buf[p..m])
    ensures out + Grepped(re, buf[p..m] + rest) == Grepped(re, old(buf[..m]) + rest)
  {
    hide Matches, Grepped, LineEnd;
    p, out := 0, "";
    ghost var text := buf[..m];
    assert text[0..] == text;
    while true
      invariant p <= m && buf[m] == '\0' && forall k :: p <= k < m ==> buf[k] == text[k]
      invariant out + Grepped(re, text[p..] + rest) == Grepped(re, text + rest)
      decreases m - p
    {
      assert buf[p..m] == text[p..];
      var q := Strchr(buf, p, m);
      if q == m {
        return;
      }
      LineAt(re, text, p, q, rest);
      ghost var g := Grepped(re, text[q + 1..] + rest);
      assert buf[p..q] == text[p..q] && buf[p..q + 1] == text[p..q + 1];
      var line := OneLine(re, buf, p, q);
      assert line == if Matches(re, text[p..q]) then text[p..q + 1] else "";
      assert out + (line + g) == (out + line) + g;
      out := out + line;
      p := q + 1;
    }
  }

  /** The line starting at p. */
  lemma LineAt(re: string, text: string, p: nat, q: nat, rest: string)
    requires p <= q < |text| < BUFSIZE && HasLine(text[p..]) && q - p == LineEnd(text[p..])
    ensures Grepped(re, text[p..] + rest)
         == (if Matches(re, text[p..q]) then text[p..q + 1] else "") + Grepped(re, text[q + 1..] + rest)
  {
    NextLine(re, text[p..], rest);
    assert text[p..][..q - p] == text[p..q] && text[p..][..q - p + 1] == text[p..q + 1];
    assert text[p..][q - p + 1..] == text[q + 1..];
  }

  lemma NextLine(re: string, s: string, rest: string)
    requires HasLine(s) && |s| < BUFSIZE
    ensures var i := LineEnd(s);
      Grepped(re, s + rest) == (if Matches(re, s[..i]) then s[..i + 1] else "") + Grepped(re, s[i + 1..] + rest)
  {
    var i := LineEnd(s);
    LineEndAppend(s, rest);
    assert (s + rest)[..i] == s[..i] && (s + rest)[..i + 1] == s[..i + 1] && (s + rest)[i + 1..] == s[i + 1..] + rest;
  }

  /** A buffer with no complete line and no room, or no more input, has nothing left to print. */
  lemma NothingLeft(re: string, s: string, rest: string)
    requires !HasLine(s) && (|s| == BUFSIZE - 1 || rest == "")
    ensures Grepped(re, s + rest) == ""
  {
    LineEndAppend(s, rest);
    assert rest == "" ==> s + rest == s;
    if LineEnd(s) < |s| {
      assert (s + rest)[LineEnd(s)] == s[LineEnd(s)];
    }
  }

  /** read(fd, buf + m, n): the next n characters of the input. */
  method ReadInto(buf: array<char>, m: nat, input: string, pos: nat, n: nat)
    requires m + n < buf.Length && pos + n <= |input|
    modifies buf
    ensures buf[..m + n] + input[pos + n..] == old(buf[..m]) + input[pos..]
  {
    forall j | 0 <= j < n {
      buf[m + j] := input[pos + j];
    }
    assert buf[..m] == old(buf[..m]) && buf[m..m + n] == input[pos..pos + n];
    assert buf[..m + n] == buf[..m] + buf[m..m + n];
    assert input[pos..] == input[pos..pos + n] + input[pos + n..];
  }

  /** memmove(buf, buf + p, n). */
  method MoveDown(buf: array<char>, p: nat, n: nat)
    requires p + n <= buf.Length
    modifies buf
    ensures buf[..n] == old(buf[p..p + n])
  {
    forall j | 0 <= j < n {
      buf[j] := buf[p + j];
    }
  }

  /** grep on an input delivered by read() in pieces of any size: the pieces do not matter. */
  method Grep(re: string, input: string) returns (out: string)
    ensures out == Grepped(re, input)
  {
    hide Grepped, LineEnd, Matches;
    out := "";
    var buf := new char[BUFSIZE];
    var m, pos := 0, 0;
    assert buf[..0] + input[0..] == input;
    while true
      invariant 0 <= m < BUFSIZE && pos <= |input|
      invariant !HasLine(buf[..m])
      invariant out + Grepped(re, buf[..m] + input[pos..]) == Grepped(re, input)
      decreases |input| - pos
    {
      if BUFSIZE - m - 1 == 0 || pos == |input| {
        NothingLeft(re, buf[..m], input[pos..]);
        return;
      }
      assert m + 1 < BUFSIZE && pos + 1 <= |input|;
      var n :| 1 <= n && m + n < BUFSIZE && pos + n <= |input|;
      ReadInto(buf, m, input, pos, n);
      pos, m := pos + n, m + n;
      ghost var text := buf[..m];
      buf[m] := '\0';
      assert buf[..m] == text;
      var p, more := Lines(re, buf, m, input[pos..]);
      ghost var tail := buf[p..m];
      assert out + (more + Grepped(re, tail + input[pos..])) == (out + more) + Grepped(re, tail + input[pos..]);
      out := out + more;
      MoveDown(buf, p, m - p);
      m := m - p;
    }
  }
}
