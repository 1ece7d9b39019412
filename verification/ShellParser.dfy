/**
 The shell's parser (user/sh.c): gettoken and peek over the command line, the mutually
 recursive parsers, and nulterminate, which writes NULs into the line. Words are pairs of
 positions in the line; running out with a syntax error (panic) is None.
 */
module ShellParser {

  const MAXARGS: nat := 10
  const NUL: char := 0 as char

  datatype Option<T> = None | Some(value: T)

  /** A counted string: characters q up to, not including, eq. */
  datatype Word = Word(q: nat, eq: nat)

  datatype Mode = Input | Truncate | Append

  datatype Cmd =
    | Exec(argv: seq<Word>)
    | Redir(cmd: Cmd, file: Word, mode: Mode)
    | Pipe(left: Cmd, right: Cmd)
    | List(left: Cmd, right: Cmd)
    | Back(cmd: Cmd)

  predicate Space(c: char) {
    c == ' ' || c == '\t' || c == '\r' || c == '\n' || c == 11 as char
  }

  predicate Symbol(c: char) {
    c == '<' || c == '|' || c == '>' || c == '&' || c == ';' || c == '(' || c == ')'
  }

  predicate Plain(c: char) {
    !Space(c) && !Symbol(c)
  }

  /** The line: no NUL before its end, es is the position of its NUL. */
  ghost predicate Line(buf: seq<char>, es: nat) {
    es < |buf| && buf[es] == NUL && forall i :: 0 <= i < es ==> buf[i] != NUL
  }

  // ----- what the words of a line are -----

  /** Position i does not split a word. */
  predicate Edge(buf: seq<char>, es: nat, i: nat)
    requires es <= |buf|
  {
    i == 0 || i >= es || !Plain(buf[i - 1]) || !Plain(buf[i])
  }

  /** A maximal run of characters that are neither white space nor symbols. */
  ghost predicate IsWord(buf: seq<char>, es: nat, t: Word)
    requires es <= |buf|
  {
    && t.q < t.eq <= es && Edge(buf, es, t.q) && Edge(buf, es, t.eq)
    && forall i :: t.q <= i < t.eq ==> Plain(buf[i])
  }

  function Files(c: Cmd): (m: multiset<Word>) {
    match c
    case Exec(argv) => multiset(argv)
    case Redir(cmd, file, _) => Files(cmd) + multiset{file}
    case Pipe(l, r) => Files(l) + Files(r)
    case List(l, r) => Files(l) + Files(r)
    case Back(cmd) => Files(cmd)
  }

  /** m holds each word between a and b exactly once, and nothing else. */
  ghost predicate Holds(buf: seq<char>, es: nat, m: multiset<Word>, a: nat, b: nat)
    requires es <= |buf|
  {
    && a <= b <= es && Edge(buf, es, a) && Edge(buf, es, b)
    && forall t :: m[t] == if IsWord(buf, es, t) && a <= t.q && t.eq <= b then 1 else 0
  }

  /** An edge is not inside a word. */
  lemma NotInside(buf: seq<char>, es: nat, t: Word, i: nat)
    requires es <= |buf| && IsWord(buf, es, t) && Edge(buf, es, i)
    ensures i <= t.q || t.eq <= i
  {
  }

  lemma NoWords(buf: seq<char>, es: nat, a: nat, b: nat)
    requires a <= b <= es <= |buf| && Edge(buf, es, a) && Edge(buf, es, b) && forall i :: a <= i < b ==> !Plain(buf[i])
    ensures Holds(buf, es, multiset{}, a, b)
  {
    forall t | IsWord(buf, es, t)
      ensures !(a <= t.q && t.eq <= b)
    {
      assert Plain(buf[t.q]);
    }
  }

  /** Words do not cross an edge, so spans add up. */
  lemma Together(buf: seq<char>, es: nat, m: multiset<Word>, n: multiset<Word>, a: nat, b: nat, c: nat)
    requires es <= |buf| && Holds(buf, es, m, a, b) && Holds(buf, es, n, b, c)
    ensures Holds(buf, es, m + n, a, c)
  {
    forall t
      ensures (m + n)[t] == if IsWord(buf, es, t) && a <= t.q && t.eq <= c then 1 else 0
    {
      if IsWord(buf, es, t) {
        NotInside(buf, es, t, b);
      }
    }
  }

  lemma OneWord(buf: seq<char>, es: nat, t: Word)
    requires es <= |buf| && IsWord(buf, es, t)
    ensures Holds(buf, es, multiset{t}, t.q, t.eq)
  {
    forall u | IsWord(buf, es, u) && t.q <= u.q && u.eq <= t.eq
      ensures u == t
    {
      NotInside(buf, es, t, u.q);
      NotInside(buf, es, t, u.eq);
    }
  }

  // ----- gettoken and peek -----

  ghost predicate Blank(buf: seq<char>, a: nat, b: nat) {
    a <= b <= |buf| && forall i :: a <= i < b ==> Space(buf[i])
  }

  /** The first position from i on that is not white space. */
  ghost function Next(buf: seq<char>, es: nat, i: nat): (r: nat)
    requires i <= es < |buf|
    ensures i <= r <= es && Blank(buf, i, r) && (r < es ==> !Space(buf[r]))
    decreases es - i
  {
    if i < es && Space(buf[i]) then Next(buf, es, i + 1) else i
  }

  lemma {:induction false} NextOver(buf: seq<char>, es: nat, i: nat, j: nat)
    requires es < |buf| && Blank(buf, i, j) && j <= es
    ensures Next(buf, es, i) == Next(buf, es, j)
    decreases j - i
  {
    if i < j {
      NextOver(buf, es, i + 1, j);
    }
  }

  /** White space ends at j. */
  lemma NextIs(buf: seq<char>, es: nat, i: nat, j: nat)
    requires es < |buf| && Blank(buf, i, j) && j <= es && !Space(buf[j])
    ensures Next(buf, es, i) == j
  {
    NextOver(buf, es, i, j);
  }

  datatype Token = End | Sym(c: char) | Arg(w: Word)      // Sym('+') is >>

  method SkipSpace(buf: seq<char>, es: nat, s: nat) returns (r: nat)
    requires Line(buf, es) && s <= es
    ensures s <= r <= es && (forall i :: s <= i < r ==> Space(buf[i])) && !Space(buf[r]) && r == Next(buf, es, s)
  {
    r := s;
    while r < es && Space(buf[r])
      invariant s <= r <= es && forall i :: s <= i < r ==> Space(buf[i])
    {
      r := r + 1;
    }
    NextIs(buf, es, s, r);
  }

  /** The words a token is: one, or none. */
  function TokenWords(t: Token): multiset<Word> {
    if t.Arg? then multiset{t.w} else multiset{}
  }

  method GetToken(buf: seq<char>, es: nat, s0: nat) returns (t: Token, s: nat)
    requires Line(buf, es) && s0 <= es && Edge(buf, es, s0)
    ensures s0 <= s <= es && !Space(buf[s]) && Holds(buf, es, TokenWords(t), s0, s)
    ensures t.End? ==> s == es
    ensures !t.End? ==> s0 < s
    ensures t.Arg? ==> IsWord(buf, es, t.w) && s0 <= t.w.q && t.w.eq <= s
    ensures t.Sym? ==> Symbol(t.c) || t.c == '+'
    ensures !Space(buf[s0]) ==> (t.End? <==> buf[s0] == NUL) && (t.Arg? <==> Plain(buf[s0]) && buf[s0] != NUL)
    ensures !Space(buf[s0]) && t.Sym? ==> t.c == buf[s0] || (t.c == '+' && buf[s0] == '>')
    ensures !Space(buf[s0]) && t.Sym? ==> Blank(buf, if t.c == '+' then s0 + 2 else s0 + 1, s)
    ensures !Space(buf[s0]) && t.Sym? && buf[s0] == '>' ==> s0 + 1 < |buf| && (buf[s0 + 1] == '>' <==> t.c == '+')
    ensures t.Arg? ==> Blank(buf, s0, t.w.q) && Blank(buf, t.w.eq, s)
    ensures t.End? ==> Blank(buf, s0, s)
    ensures var q := Next(buf, es, s0);
      && (t.End? <==> buf[q] == NUL) && (t.Arg? <==> buf[q] != NUL && Plain(buf[q]))
      && (t.Arg? ==> t.w.q == q && t.w.eq <= es && s == Next(buf, es, t.w.eq))
    ensures !Space(buf[s0]) && t.Sym? ==>
      (if t.c == '+' then s0 + 2 else s0 + 1) <= es && s == Next(buf, es, if t.c == '+' then s0 + 2 else s0 + 1)
  {
    hide Holds, IsWord;
    var q := SkipSpace(buf, es, s0);
    NoWords(buf, es, s0, q);
    var e := q;
    if buf[q] == NUL {
      t := End;
    } else if Symbol(buf[q]) {
      t := Sym(buf[q]);
      e := q + 1;
      if buf[q] == '>' && buf[e] == '>' {
        t := Sym('+');
        e := e + 1;
      }
      NoWords(buf, es, q, e);
    } else {
      while e < es && !Space(buf[e]) && !Symbol(buf[e])
        invariant q <= e <= es && forall i :: q <= i < e ==> Plain(buf[i])
      {
        e := e + 1;
      }
      t := Arg(Word(q, e));
      RunIsWord(buf, es, q, e);
      OneWord(buf, es, Word(q, e));
    }
    s := SkipSpace(buf, es, e);
    NoWords(buf, es, e, s);
    Together(buf, es, multiset{}, TokenWords(t), s0, q, e);
    Together(buf, es, multiset{} + TokenWords(t), multiset{}, s0, e, s);
    assert multiset{} + TokenWords(t) + multiset{} == TokenWords(t);
  }

  lemma RunIsWord(buf: seq<char>, es: nat, q: nat, e: nat)
    requires es <= |buf| && q < e <= es && Edge(buf, es, q) && (e < es ==> !Plain(buf[e]))
      && forall i :: q <= i < e ==> Plain(buf[i])
    ensures IsWord(buf, es, Word(q, e))
  {
  }

  /** The next character that is not white space, and whether it is one of toks. */
  method Peek(buf: seq<char>, es: nat, s0: nat, toks: seq<char>) returns (found: bool, s: nat)
    requires Line(buf, es) && s0 <= es && Edge(buf, es, s0)
    ensures s0 <= s <= es && !Space(buf[s]) && Edge(buf, es, s) && Holds(buf, es, multiset{}, s0, s)
    ensures found <==> buf[s] != NUL && buf[s] in toks
    ensures Blank(buf, s0, s) && s == Next(buf, es, s0)
  {
    s := SkipSpace(buf, es, s0);
    NoWords(buf, es, s0, s);
    found := buf[s] != NUL && buf[s] in toks;
  }

  // ----- the grammar -----

  /** The characters a..k are the operator of a redirection; a single > is not followed by another. */
  predicate Operator(buf: seq<char>, mode: Mode, a: nat, k: nat) {
    && a < k <= |buf|
    && match mode
       case Input => k == a + 1 && buf[a] == '<'
       case Append => k == a + 2 && buf[a] == '>' && buf[a + 1] == '>'
       case Truncate => k == a + 1 && buf[a] == '>' && k < |buf| && buf[k] != '>'
  }

  /** The text a..b is a list of arguments and redirections, interleaved in any way. */
  ghost predicate ItemsAre(buf: seq<char>, es: nat, argv: seq<Word>, rs: seq<(Word, Mode)>, a: nat, b: nat)
    requires es <= |buf|
    decreases |argv| + |rs|
  {
    || (argv == [] && rs == [] && a == b)
    || (argv != [] && LastArg(buf, es, argv, rs, a, b))
    || (rs != [] && LastRedir(buf, es, argv, rs, a, b))
  }

  ghost predicate LastArg(buf: seq<char>, es: nat, argv: seq<Word>, rs: seq<(Word, Mode)>, a: nat, b: nat)
    requires es <= |buf| && argv != []
    decreases |argv| + |rs|, 0
  {
    var w := argv[|argv| - 1];
    && IsWord(buf, es, w) && w.eq == b
    && exists i: nat :: ItemsAre(buf, es, argv[..|argv| - 1], rs, a, i) && Blank(buf, i, w.q)
  }

  ghost predicate LastRedir(buf: seq<char>, es: nat, argv: seq<Word>, rs: seq<(Word, Mode)>, a: nat, b: nat)
    requires es <= |buf| && rs != []
    decreases |argv| + |rs|, 0
  {
    var (w, mode) := rs[|rs| - 1];
    && IsWord(buf, es, w) && w.eq == b
    && exists i: nat, j: nat, k: nat ::
         ItemsAre(buf, es, argv, rs[..|rs| - 1], a, i) && Blank(buf, i, j) && Operator(buf, mode, j, k)
           && Blank(buf, k, w.q)
  }

  /** A run of redirections only. */
  ghost predicate RedirsAre(buf: seq<char>, es: nat, rs: seq<(Word, Mode)>, a: nat, b: nat)
    requires es <= |buf|
  {
    ItemsAre(buf, es, [], rs, a, b)
  }

  /**
   line: back [ ; line ]    back: pipe { & }    pipe: exec [ | pipe ]
   exec: ( line ) redirs, or arguments and redirs.
   */
  ghost predicate LineIs(buf: seq<char>, es: nat, c: Cmd, a: nat, b: nat)
    requires es <= |buf|
    decreases b - a, 3
  {
    a <= b <= es && (BackIs(buf, es, c, a, b) || exists i: nat, j: nat, k: nat :: ListAt(buf, es, c, a, b, i, j, k))
  }

  /** Up to i the first part, at j the semicolon, from k the rest. */
  ghost predicate ListAt(buf: seq<char>, es: nat, c: Cmd, a: nat, b: nat, i: nat, j: nat, k: nat)
    requires es <= |buf|
    decreases b - a, 0
  {
    && c.List? && a <= i <= j < k <= b <= es && Blank(buf, i, j) && buf[j] == ';' && Blank(buf, j + 1, k)
    && BackIs(buf, es, c.left, a, i) && LineIs(buf, es, c.right, k, b)
  }

  ghost predicate BackIs(buf: seq<char>, es: nat, c: Cmd, a: nat, b: nat)
    requires es <= |buf|
    decreases b - a, 2
  {
    && a <= b <= es
    && (|| PipeIs(buf, es, c, a, b)
        || (c.Back? && exists i: nat, j: nat ::
              a <= i <= j < b && b == j + 1 && Blank(buf, i, j) && buf[j] == '&' && BackIs(buf, es, c.cmd, a, i)))
  }

  ghost predicate PipeIs(buf: seq<char>, es: nat, c: Cmd, a: nat, b: nat)
    requires es <= |buf|
    decreases b - a, 1
  {
    a <= b <= es && (ExecIs(buf, es, c, a, b) || exists i: nat, j: nat, k: nat :: PipeAt(buf, es, c, a, b, i, j, k))
  }

  /** Up to i the first command, at j the bar, from k the rest. */
  ghost predicate PipeAt(buf: seq<char>, es: nat, c: Cmd, a: nat, b: nat, i: nat, j: nat, k: nat)
    requires es <= |buf|
    decreases b - a, 0
  {
    && c.Pipe? && a <= i <= j < k <= b <= es && Blank(buf, i, j) && buf[j] == '|' && Blank(buf, j + 1, k)
    && ExecIs(buf, es, c.left, a, i) && PipeIs(buf, es, c.right, k, b)
  }

  ghost predicate ExecIs(buf: seq<char>, es: nat, c: Cmd, a: nat, b: nat)
    requires es <= |buf|
    decreases b - a, 0, 1
  {
    && a <= b <= es
    && (|| (exists h :: SimpleAt(buf, es, c, a, b, h))
        || (exists n, i: nat, l: nat :: NestedExec(buf, es, c, a, b, n, i, l)))
  }

  ghost predicate SimpleAt(buf: seq<char>, es: nat, c: Cmd, a: nat, b: nat, h: Items)
    requires es <= |buf|
  {
    h.b == b && c == Wrap(Exec(h.argv), h.rs) && ItemsAre(buf, es, h.argv, h.rs, a, b)
  }

  /** At i and l the parentheses, between them a line, then redirections. */
  ghost predicate NestedExec(buf: seq<char>, es: nat, c: Cmd, a: nat, b: nat, n: Nested, i: nat, l: nat)
    requires es <= |buf|
    decreases b - a, 0, 0
  {
    && n.b == b && c == Wrap(n.inner, n.rs) && a <= i < n.j <= n.k <= l < b <= es
    && Blank(buf, a, i) && buf[i] == '(' && Blank(buf, i + 1, n.j)
    && LineIs(buf, es, n.inner, n.j, n.k) && Blank(buf, n.k, l) && buf[l] == ')'
    && RedirsAre(buf, es, n.rs, l + 1, b)
  }

  /** Arguments and redirections that read to b. */
  datatype Items = Items(argv: seq<Word>, rs: seq<(Word, Mode)>, b: nat)

  /** A line in parentheses, with redirections: the text j..k is inner, and rs end at b. */
  datatype Nested = Nested(inner: Cmd, j: nat, k: nat, rs: seq<(Word, Mode)>, b: nat)

  /** c is what the grammar makes of the whole line, and no command in it has too many arguments. */
  ghost predicate Derives(buf: seq<char>, es: nat, c: Cmd)
    requires Line(buf, es)
  {
    ArgsFit(c) && exists t: nat :: t <= es && LineIs(buf, es, c, 0, t) && Blank(buf, t, es)
  }

  // ----- a reading of the text, if there is one, that a parser has to find -----

  /** The text a..b reads as c. */
  datatype Reading = Reading(c: Cmd, a: nat, b: nat)

  /** What may follow a line, a line's first part, a pipeline and a command. */
  predicate EndsLine(c: char) {
    c == ')' || c == NUL
  }

  predicate EndsBack(c: char) {
    EndsLine(c) || c == ';'
  }

  predicate EndsPipe(c: char) {
    EndsBack(c) || c == '&'
  }

  predicate EndsExec(c: char) {
    EndsPipe(c) || c == '|'
  }

  /** The reading starts where the parser does, and its commands have room for their arguments. */
  ghost predicate Ahead(buf: seq<char>, es: nat, w: Option<Reading>, s0: nat)
    requires Line(buf, es) && s0 <= es
  {
    w.Some? ==>
      && w.value.a <= es && w.value.b <= es && ArgsFit(w.value.c)
      && Next(buf, es, w.value.a) == Next(buf, es, s0)
  }

  /** The parser found it. */
  ghost predicate Found(buf: seq<char>, es: nat, w: Option<Reading>, r: Option<Cmd>, s: nat)
    requires Line(buf, es)
  {
    w.Some? ==> w.value.b <= es && r == Some(w.value.c) && s == Next(buf, es, w.value.b)
  }

  /** argv and rs have been read; what remains of h starts at s. */
  ghost predicate Remains(buf: seq<char>, es: nat, argv: seq<Word>, rs: seq<(Word, Mode)>, s: nat, h: Items)
    requires Line(buf, es) && s <= es
  {
    && |argv| <= |h.argv| && argv == h.argv[..|argv|] && |rs| <= |h.rs| && rs == h.rs[..|rs|] && h.b <= es
    && exists p: nat ::
         p <= es && Next(buf, es, p) == Next(buf, es, s) && ItemsAre(buf, es, h.argv[|argv|..], h.rs[|rs|..], p, h.b)
  }

  /** The first of a non-empty run of items: a word, or the operator j..k and a word, and then the rest. */
  lemma {:induction false} FirstItem(buf: seq<char>, es: nat, argv: seq<Word>, rs: seq<(Word, Mode)>, a: nat, b: nat)
    returns (isArg: bool, j: nat, k: nat)
    requires es <= |buf| && ItemsAre(buf, es, argv, rs, a, b) && |argv| + |rs| > 0
    ensures isArg ==>
      && argv != [] && IsWord(buf, es, argv[0]) && Blank(buf, a, argv[0].q)
      && ItemsAre(buf, es, argv[1..], rs, argv[0].eq, b)
    ensures !isArg ==>
      && rs != [] && IsWord(buf, es, rs[0].0) && Blank(buf, a, j) && Operator(buf, rs[0].1, j, k)
        && Blank(buf, k, rs[0].0.q)
      && ItemsAre(buf, es, argv, rs[1..], rs[0].0.eq, b)
    decreases |argv| + |rs|
  {
    hide IsWord, Operator;
    j, k := 0, 0;
    if argv != [] && LastArg(buf, es, argv, rs, a, b) {
      var init, w := argv[..|argv| - 1], argv[|argv| - 1];
      var i: nat :| ItemsAre(buf, es, init, rs, a, i) && Blank(buf, i, w.q);
      if |init| + |rs| == 0 {
        isArg := true;
        assert argv[1..] == [] && ItemsAre(buf, es, [], [], b, b);
      } else {
        isArg, j, k := FirstItem(buf, es, init, rs, a, i);
        if isArg {
          MoreArg(buf, es, init[1..], rs, init[0].eq, i, w);
          assert argv[1..] == init[1..] + [w] && argv[0] == init[0];
        } else {
          MoreArg(buf, es, init, rs[1..], rs[0].0.eq, i, w);
          assert argv == init + [w];
        }
      }
    } else {
      var init := rs[..|rs| - 1];
      var (w, mode) := rs[|rs| - 1];
      var i: nat, m: nat, n: nat :|
        ItemsAre(buf, es, argv, init, a, i) && Blank(buf, i, m) && Operator(buf, mode, m, n) && Blank(buf, n, w.q);
      if |argv| + |init| == 0 {
        isArg, j, k := false, m, n;
        assert rs[1..] == [] && ItemsAre(buf, es, [], [], b, b);
      } else {
        isArg, j, k := FirstItem(buf, es, argv, init, a, i);
        if isArg {
          MoreRedir(buf, es, argv[1..], init, argv[0].eq, i, m, n, w, mode);
          assert rs == init + [(w, mode)];
        } else {
          MoreRedir(buf, es, argv, init[1..], init[0].0.eq, i, m, n, w, mode);
          assert rs[1..] == init[1..] + [(w, mode)] && rs[0] == init[0];
        }
      }
    }
  }

  lemma WordSame(buf: seq<char>, es: nat, t: Word, u: Word)
    requires es <= |buf| && IsWord(buf, es, t) && IsWord(buf, es, u) && t.q == u.q
    ensures t == u
  {
    NotInside(buf, es, t, u.eq);
    NotInside(buf, es, u, t.eq);
  }

  lemma OperatorSame(buf: seq<char>, mode: Mode, k: nat, mode': Mode, k': nat, a: nat)
    requires Operator(buf, mode, a, k) && Operator(buf, mode', a, k')
    ensures mode == mode' && k == k'
  {
  }

  /** What is left starts with a redirection, when the next character is < or >. */
  lemma RemainsRedir(buf: seq<char>, es: nat, argv: seq<Word>, rs: seq<(Word, Mode)>, s: nat, h: Items) returns (k: nat)
    requires Line(buf, es) && s <= es && Remains(buf, es, argv, rs, s, h) && EndsExec(buf[Next(buf, es, h.b)])
    requires buf[s] == '<' || buf[s] == '>'
    ensures |rs| < |h.rs|
    ensures var (w, mode) := h.rs[|rs|];
      && IsWord(buf, es, w) && Operator(buf, mode, s, k) && Blank(buf, k, w.q)
      && Remains(buf, es, argv, rs + [(w, mode)], w.eq, h)
  {
    hide ItemsAre, Edge;
    NextIs(buf, es, s, s);
    var p: nat :| p <= es && Next(buf, es, p) == Next(buf, es, s)
      && ItemsAre(buf, es, h.argv[|argv|..], h.rs[|rs|..], p, h.b);
    var av, rv := h.argv[|argv|..], h.rs[|rs|..];
    ItemsNone(buf, es, av, rv, p, h.b);
    var isArg, j;
    isArg, j, k := FirstItem(buf, es, av, rv, p, h.b);
    if isArg {
      NextIs(buf, es, p, av[0].q);
    } else {
      NextIs(buf, es, p, j);
      assert rv[1..] == h.rs[|rs| + 1..] && rv[0] == h.rs[|rs|];
      var w := h.rs[|rs|].0;
      assert rs + [h.rs[|rs|]] == h.rs[..|rs| + 1];
      assert ItemsAre(buf, es, h.argv[|argv|..], h.rs[|rs + [h.rs[|rs|]]|..], w.eq, h.b);
    }
  }

  lemma ItemsNone(buf: seq<char>, es: nat, argv: seq<Word>, rs: seq<(Word, Mode)>, a: nat, b: nat)
    requires es <= |buf| && ItemsAre(buf, es, argv, rs, a, b)
    ensures |argv| + |rs| == 0 ==> a == b
  {
  }

  /** What is left starts with an argument, when the next character is neither that of a redirection nor an end. */
  lemma RemainsArg(buf: seq<char>, es: nat, argv: seq<Word>, rs: seq<(Word, Mode)>, s: nat, h: Items)
    requires Line(buf, es) && s <= es && Remains(buf, es, argv, rs, s, h) && EndsExec(buf[Next(buf, es, h.b)])
    requires !Space(buf[s]) && buf[s] != '<' && buf[s] != '>' && !EndsExec(buf[s])
    ensures |argv| < |h.argv|
    ensures var w := h.argv[|argv|];
      && IsWord(buf, es, w) && w.q == s
      && Remains(buf, es, argv + [w], rs, w.eq, h)
  {
    hide ItemsAre, Edge;
    NextIs(buf, es, s, s);
    var p: nat :| p <= es && Next(buf, es, p) == Next(buf, es, s)
      && ItemsAre(buf, es, h.argv[|argv|..], h.rs[|rs|..], p, h.b);
    var av, rv := h.argv[|argv|..], h.rs[|rs|..];
    ItemsNone(buf, es, av, rv, p, h.b);
    var isArg, j, k := FirstItem(buf, es, av, rv, p, h.b);
    if isArg {
      NextIs(buf, es, p, av[0].q);
      assert av[1..] == h.argv[|argv| + 1..] && av[0] == h.argv[|argv|];
      var w := h.argv[|argv|];
      assert argv + [w] == h.argv[..|argv| + 1];
      assert ItemsAre(buf, es, h.argv[|argv + [w]|..], h.rs[|rs|..], w.eq, h.b);
    } else {
      NextIs(buf, es, p, j);
    }
  }

  /** Nothing is left, when the next character starts no item that could be. */
  lemma RemainsNone(buf: seq<char>, es: nat, argv: seq<Word>, rs: seq<(Word, Mode)>, s: nat, h: Items)
    requires Line(buf, es) && s <= es && Remains(buf, es, argv, rs, s, h)
    requires !Space(buf[s]) && buf[s] != '<' && buf[s] != '>' && (|argv| == |h.argv| || EndsExec(buf[s]))
    ensures argv == h.argv && rs == h.rs && s == Next(buf, es, h.b)
  {
    hide ItemsAre, Edge;
    NextIs(buf, es, s, s);
    var p: nat :| p <= es && Next(buf, es, p) == Next(buf, es, s)
      && ItemsAre(buf, es, h.argv[|argv|..], h.rs[|rs|..], p, h.b);
    var av, rv := h.argv[|argv|..], h.rs[|rs|..];
    ItemsNone(buf, es, av, rv, p, h.b);
    if |av| + |rv| > 0 {
      var isArg, j, k := FirstItem(buf, es, av, rv, p, h.b);
      NextIs(buf, es, p, if isArg then av[0].q else j);
    }
  }

  /** A run of items that ends properly does not start with a parenthesis. */
  lemma ItemsNoParen(buf: seq<char>, es: nat, argv: seq<Word>, rs: seq<(Word, Mode)>, a: nat, b: nat)
    requires Line(buf, es) && a <= es && b <= es && ItemsAre(buf, es, argv, rs, a, b) && EndsExec(buf[Next(buf, es, b)])
    ensures buf[Next(buf, es, a)] != '('
  {
    hide ItemsAre, Edge;
    ItemsNone(buf, es, argv, rs, a, b);
    if |argv| + |rs| > 0 {
      var isArg, j, k := FirstItem(buf, es, argv, rs, a, b);
      NextIs(buf, es, a, if isArg then argv[0].q else j);
    }
  }

  lemma RemainsAll(buf: seq<char>, es: nat, argv: seq<Word>, rs: seq<(Word, Mode)>, a: nat, b: nat, s: nat)
    requires Line(buf, es) && a <= es && s <= es && b <= es && ItemsAre(buf, es, argv, rs, a, b)
    requires Next(buf, es, a) == Next(buf, es, s)
    ensures Remains(buf, es, [], [], s, Items(argv, rs, b))
  {
    hide ItemsAre, Next;
    assert argv[0..] == argv && rs[0..] == rs && argv[..0] == [] && rs[..0] == [];
  }

  lemma {:induction false} WrapFits(c: Cmd, rs: seq<(Word, Mode)>)
    ensures ArgsFit(Wrap(c, rs)) ==> ArgsFit(c)
  {
    if rs != [] {
      WrapFits(c, rs[..|rs| - 1]);
    }
  }

  // ----- the parts of a reading -----

  /** A pipeline is its first command, or that, a bar and the rest. */
  lemma PipeParts(buf: seq<char>, es: nat, c: Cmd, a: nat, b: nat) returns (l: Cmd, i: nat, k: nat, more: bool)
    requires Line(buf, es) && PipeIs(buf, es, c, a, b)
    ensures a <= i <= b <= es && ExecIs(buf, es, l, a, i)
    ensures !more ==> l == c && i == b
    ensures more ==>
      && c.Pipe? && l == c.left && a < k <= b && PipeIs(buf, es, c.right, k, b)
      && Next(buf, es, i) < es && buf[Next(buf, es, i)] == '|'
        && Next(buf, es, k) == Next(buf, es, Next(buf, es, i) + 1)
  {
    hide ExecIs, Blank, Next;
    l, i, k, more := c, b, 0, !ExecIs(buf, es, c, a, b);
    if more {
      var i1: nat, j: nat, k1: nat :| PipeAt(buf, es, c, a, b, i1, j, k1);
      l, i, k := c.left, i1, k1;
      NextIs(buf, es, i, j);
      NextOver(buf, es, j + 1, k);
    }
  }

  /** The ampersands from s on make c0 into the reading of c that ends at b. */
  ghost predicate Amps(buf: seq<char>, es: nat, c0: Cmd, s: nat, c: Cmd, b: nat)
    requires Line(buf, es) && s <= es && b <= es
    decreases es - s
  {
    || (c0 == c && s == Next(buf, es, b))
    || (s < es && buf[s] == '&' && Amps(buf, es, Back(c0), Next(buf, es, s + 1), c, b))
  }

  lemma {:induction false} AmpsMore(buf: seq<char>, es: nat, c0: Cmd, s: nat, c: Cmd, b: nat)
    requires Line(buf, es) && s <= es && b <= es && Amps(buf, es, c0, s, c, b) && Next(buf, es, b) < es
    requires buf[Next(buf, es, b)] == '&'
    ensures Amps(buf, es, c0, s, Back(c), Next(buf, es, b) + 1)
    decreases es - s
  {
    hide Next;
    if c0 == c && s == Next(buf, es, b) {
      assert Amps(buf, es, Back(c0), Next(buf, es, s + 1), Back(c), s + 1);
    } else {
      AmpsMore(buf, es, Back(c0), Next(buf, es, s + 1), c, b);
    }
  }

  /** The first part of a line is a pipeline and some ampersands. */
  lemma {:induction false} BackParts(buf: seq<char>, es: nat, c: Cmd, a: nat, b: nat) returns (p: Cmd, i: nat)
    requires Line(buf, es) && BackIs(buf, es, c, a, b)
    ensures a <= i <= b <= es && PipeIs(buf, es, p, a, i) && Amps(buf, es, p, Next(buf, es, i), c, b)
    ensures (ArgsFit(c) ==> ArgsFit(p))
    decreases c
  {
    hide PipeIs;
    if PipeIs(buf, es, c, a, b) {
      p, i := c, b;
    } else {
      var i1: nat, j: nat :| a <= i1 <= j < b && b == j + 1 && Blank(buf, i1, j) && buf[j] == '&'
        && BackIs(buf, es, c.cmd, a, i1);
      p, i := BackParts(buf, es, c.cmd, a, i1);
      NextIs(buf, es, i1, j);
      AmpsMore(buf, es, p, Next(buf, es, i), c.cmd, i1);
    }
  }

  /** What follows the pipeline: an ampersand, or what follows all of it. */
  lemma AmpsEnd(buf: seq<char>, es: nat, c0: Cmd, s: nat, c: Cmd, b: nat)
    requires Line(buf, es) && s <= es && b <= es && Amps(buf, es, c0, s, c, b) && EndsBack(buf[Next(buf, es, b)])
    ensures buf[s] != '&' ==> c0 == c && s == Next(buf, es, b)
    ensures buf[s] == '&' ==> s < es && Amps(buf, es, Back(c0), Next(buf, es, s + 1), c, b)
    ensures EndsPipe(buf[s])
  {
  }

  /** A line is its first part, or that, a semicolon and the rest. */
  lemma LineParts(buf: seq<char>, es: nat, c: Cmd, a: nat, b: nat) returns (l: Cmd, i: nat, k: nat, more: bool)
    requires Line(buf, es) && LineIs(buf, es, c, a, b)
    ensures a <= i <= b <= es && BackIs(buf, es, l, a, i)
    ensures !more ==> l == c && i == b
    ensures more ==>
      && c.List? && l == c.left && a < k <= b && LineIs(buf, es, c.right, k, b)
      && Next(buf, es, i) < es && buf[Next(buf, es, i)] == ';'
        && Next(buf, es, k) == Next(buf, es, Next(buf, es, i) + 1)
  {
    hide BackIs, Blank, Next;
    l, i, k, more := c, b, 0, !BackIs(buf, es, c, a, b);
    if more {
      var i1: nat, j: nat, k1: nat :| ListAt(buf, es, c, a, b, i1, j, k1);
      l, i, k := c.left, i1, k1;
      NextIs(buf, es, i, j);
      NextOver(buf, es, j + 1, k);
    }
  }

  ghost predicate NestedAt(buf: seq<char>, es: nat, s: nat, n: Nested)
    requires Line(buf, es) && s <= es
  {
    && s < es && buf[s] == '(' && n.j <= es && n.k <= es && n.b <= es && Next(buf, es, n.j) == Next(buf, es, s + 1)
    && LineIs(buf, es, n.inner, n.j, n.k) && Next(buf, es, n.k) < es && buf[Next(buf, es, n.k)] == ')'
    && RedirsAre(buf, es, n.rs, Next(buf, es, n.k) + 1, n.b)
  }

  lemma NestedParts(buf: seq<char>, es: nat, a: nat, i: nat, l: nat, n: Nested)
    requires Line(buf, es) && a <= i < n.j <= n.k <= l < n.b <= es && Blank(buf, a, i) && buf[i] == '('
    requires Blank(buf, i + 1, n.j)
    requires LineIs(buf, es, n.inner, n.j, n.k) && Blank(buf, n.k, l) && buf[l] == ')'
    requires RedirsAre(buf, es, n.rs, l + 1, n.b)
    ensures NestedAt(buf, es, Next(buf, es, a), n)
  {
    hide LineIs, RedirsAre, Next, Blank;
    NextIs(buf, es, a, i);
    NextOver(buf, es, i + 1, n.j);
    NextIs(buf, es, n.k, l);
  }

  /** A command is a run of items, or a line in parentheses. */
  lemma ExecParts(buf: seq<char>, es: nat, c: Cmd, a: nat, b: nat) returns (h: Items, n: Nested, nested: bool)
    requires Line(buf, es) && ExecIs(buf, es, c, a, b) && a <= b <= es
    ensures !nested ==> c == Wrap(Exec(h.argv), h.rs) && h.b == b && ItemsAre(buf, es, h.argv, h.rs, a, b)
    ensures nested ==>
      c == Wrap(n.inner, n.rs) && n.b == b && NestedAt(buf, es, Next(buf, es, a), n) && a < n.j <= n.k <= b
  {
    hide ItemsAre, LineIs, Wrap, Blank, Next, NestedAt, RedirsAre;
    h, n, nested := Items([], [], b), Nested(c, 0, 0, [], b), true;
    if m :| SimpleAt(buf, es, c, a, b, m) {
      h, nested := m, false;
    } else {
      var m, i: nat, l: nat :| NestedExec(buf, es, c, a, b, m, i, l);
      n := m;
      NestedParts(buf, es, a, i, l, n);
    }
  }

  // ----- a line has at most one reading -----

  /** A run of items is empty exactly when an end follows its start. */
  lemma ItemsStart(buf: seq<char>, es: nat, argv: seq<Word>, rs: seq<(Word, Mode)>, a: nat, b: nat)
    requires Line(buf, es) && a <= es && b <= es && ItemsAre(buf, es, argv, rs, a, b) && EndsExec(buf[Next(buf, es, b)])
    ensures |argv| + |rs| == 0 <==> EndsExec(buf[Next(buf, es, a)])
  {
    hide ItemsAre, Edge;
    ItemsNone(buf, es, argv, rs, a, b);
    if |argv| + |rs| > 0 {
      var isArg, j, k := FirstItem(buf, es, argv, rs, a, b);
      NextIs(buf, es, a, if isArg then argv[0].q else j);
    }
  }

  lemma {:induction false} ItemsSame(buf: seq<char>, es: nat, argv: seq<Word>, rs: seq<(Word, Mode)>, a: nat, b: nat,
                                     argv': seq<Word>, rs': seq<(Word, Mode)>, a': nat, b': nat)
    requires Line(buf, es) && a <= es && b <= es && a' <= es && b' <= es && Next(buf, es, a) == Next(buf, es, a')
    requires ItemsAre(buf, es, argv, rs, a, b) && EndsExec(buf[Next(buf, es, b)])
    requires ItemsAre(buf, es, argv', rs', a', b') && EndsExec(buf[Next(buf, es, b')])
    ensures argv == argv' && rs == rs' && Next(buf, es, b) == Next(buf, es, b')
    decreases |argv| + |rs|
  {
    hide ItemsAre, Edge, Operator, Next;
    ItemsStart(buf, es, argv, rs, a, b);
    ItemsStart(buf, es, argv', rs', a', b');
    ItemsNone(buf, es, argv, rs, a, b);
    ItemsNone(buf, es, argv', rs', a', b');
    if |argv| + |rs| > 0 {
      var isArg, j, k := FirstItem(buf, es, argv, rs, a, b);
      var isArg', j', k' := FirstItem(buf, es, argv', rs', a', b');
      FirstChar(buf, es, a, isArg, if isArg then argv[0] else rs[0].0, j, k, if isArg then Input else rs[0].1);
      FirstChar(buf, es, a', isArg', if isArg' then argv'[0] else rs'[0].0, j', k', if isArg' then Input else rs'[0].1);
      if isArg && isArg' {
        WordSame(buf, es, argv[0], argv'[0]);
        ItemsSame(buf, es, argv[1..], rs, argv[0].eq, b, argv'[1..], rs', argv'[0].eq, b');
        assert argv == [argv[0]] + argv[1..] && argv' == [argv'[0]] + argv'[1..];
      } else if !isArg && !isArg' {
        OperatorSame(buf, rs[0].1, k, rs'[0].1, k', j);
        WordSame(buf, es, rs[0].0, rs'[0].0);
        ItemsSame(buf, es, argv, rs[1..], rs[0].0.eq, b, argv', rs'[1..], rs'[0].0.eq, b');
        assert rs == [rs[0]] + rs[1..] && rs' == [rs'[0]] + rs'[1..];
      }
    }
  }

  /** Where the first item starts, and where its word does. */
  lemma FirstChar(buf: seq<char>, es: nat, a: nat, isArg: bool, w: Word, j: nat, k: nat, mode: Mode)
    requires Line(buf, es) && a <= es && IsWord(buf, es, w)
    requires if isArg then Blank(buf, a, w.q) else Blank(buf, a, j) && Operator(buf, mode, j, k) && Blank(buf, k, w.q)
    ensures isArg ==> w.q == Next(buf, es, a) && Plain(buf[w.q])
    ensures !isArg ==> j == Next(buf, es, a) && j < es && Symbol(buf[j]) && k <= es && w.q == Next(buf, es, k)
  {
    hide Edge;
    if isArg {
      NextIs(buf, es, a, w.q);
    } else {
      NextIs(buf, es, a, j);
      NextIs(buf, es, k, w.q);
    }
  }

  lemma {:induction false} LineSame(buf: seq<char>, es: nat, c: Cmd, a: nat, b: nat, c': Cmd, a': nat, b': nat)
    requires Line(buf, es) && a <= b <= es && a' <= b' <= es && Next(buf, es, a) == Next(buf, es, a')
    requires LineIs(buf, es, c, a, b) && EndsLine(buf[Next(buf, es, b)])
    requires LineIs(buf, es, c', a', b') && EndsLine(buf[Next(buf, es, b')])
    ensures c == c' && Next(buf, es, b) == Next(buf, es, b')
    decreases b - a, 3
  {
    hide LineIs, BackIs, Next;
    var l, i, k, more := LineParts(buf, es, c, a, b);
    var l', i', k', more' := LineParts(buf, es, c', a', b');
    BackSame(buf, es, l, a, i, l', a', i');
    if more && more' {
      LineSame(buf, es, c.right, k, b, c'.right, k', b');
    }
  }

  lemma {:induction false} BackSame(buf: seq<char>, es: nat, c: Cmd, a: nat, b: nat, c': Cmd, a': nat, b': nat)
    requires Line(buf, es) && a <= b <= es && a' <= b' <= es && Next(buf, es, a) == Next(buf, es, a')
    requires BackIs(buf, es, c, a, b) && EndsBack(buf[Next(buf, es, b)])
    requires BackIs(buf, es, c', a', b') && EndsBack(buf[Next(buf, es, b')])
    ensures c == c' && Next(buf, es, b) == Next(buf, es, b')
    decreases b - a, 2
  {
    hide BackIs, PipeIs, Next, Amps;
    var p, i := BackParts(buf, es, c, a, b);
    var p', i' := BackParts(buf, es, c', a', b');
    AmpsEnd(buf, es, p, Next(buf, es, i), c, b);
    AmpsEnd(buf, es, p', Next(buf, es, i'), c', b');
    PipeSame(buf, es, p, a, i, p', a', i');
    AmpsSame(buf, es, p, Next(buf, es, i), c, b, c', b');
  }

  lemma {:induction false} AmpsSame(buf: seq<char>, es: nat, p: Cmd, s: nat, c: Cmd, b: nat, c': Cmd, b': nat)
    requires Line(buf, es) && s <= es && b <= es && b' <= es
    requires Amps(buf, es, p, s, c, b) && EndsBack(buf[Next(buf, es, b)])
    requires Amps(buf, es, p, s, c', b') && EndsBack(buf[Next(buf, es, b')])
    ensures c == c' && Next(buf, es, b) == Next(buf, es, b')
    decreases es - s
  {
    hide Amps, Next;
    AmpsEnd(buf, es, p, s, c, b);
    AmpsEnd(buf, es, p, s, c', b');
    if buf[s] == '&' {
      AmpsSame(buf, es, Back(p), Next(buf, es, s + 1), c, b, c', b');
    }
  }

  lemma {:induction false} PipeSame(buf: seq<char>, es: nat, c: Cmd, a: nat, b: nat, c': Cmd, a': nat, b': nat)
    requires Line(buf, es) && a <= b <= es && a' <= b' <= es && Next(buf, es, a) == Next(buf, es, a')
    requires PipeIs(buf, es, c, a, b) && EndsPipe(buf[Next(buf, es, b)])
    requires PipeIs(buf, es, c', a', b') && EndsPipe(buf[Next(buf, es, b')])
    ensures c == c' && Next(buf, es, b) == Next(buf, es, b')
    decreases b - a, 1
  {
    hide PipeIs, ExecIs, Next;
    var l, i, k, more := PipeParts(buf, es, c, a, b);
    var l', i', k', more' := PipeParts(buf, es, c', a', b');
    ExecSame(buf, es, l, a, i, l', a', i');
    if more && more' {
      PipeSame(buf, es, c.right, k, b, c'.right, k', b');
    }
  }

  lemma {:induction false} ExecSame(buf: seq<char>, es: nat, c: Cmd, a: nat, b: nat, c': Cmd, a': nat, b': nat)
    requires Line(buf, es) && a <= b <= es && a' <= b' <= es && Next(buf, es, a) == Next(buf, es, a')
    requires ExecIs(buf, es, c, a, b) && EndsExec(buf[Next(buf, es, b)])
    requires ExecIs(buf, es, c', a', b') && EndsExec(buf[Next(buf, es, b')])
    ensures c == c' && Next(buf, es, b) == Next(buf, es, b')
    decreases b - a, 0
  {
    hide ExecIs, ItemsAre, LineIs, Wrap, Next, NestedAt, EndsExec;
    var h, n, nested := ExecParts(buf, es, c, a, b);
    var h', n', nested' := ExecParts(buf, es, c', a', b');
    StartsNested(buf, es, a, b, h, n, nested);
    StartsNested(buf, es, a', b', h', n', nested');
    if nested && nested' {
      NestedSame(buf, es, Next(buf, es, a), n, n');
    } else if !nested && !nested' {
      ItemsSame(buf, es, h.argv, h.rs, a, b, h'.argv, h'.rs, a', b');
    }
  }

  lemma {:induction false} NestedSame(buf: seq<char>, es: nat, s: nat, n: Nested, n': Nested)
    requires Line(buf, es) && s <= es && NestedAt(buf, es, s, n) && NestedAt(buf, es, s, n') && n.j <= n.k
    requires EndsExec(buf[Next(buf, es, n.b)]) && EndsExec(buf[Next(buf, es, n'.b)])
    ensures n.inner == n'.inner && n.rs == n'.rs && Next(buf, es, n.b) == Next(buf, es, n'.b)
    decreases n.k - n.j, 4
  {
    hide ItemsAre, LineIs, Next, NestedAt, EndsExec;
    NestedText(buf, es, s, n);
    NestedText(buf, es, s, n');
    LineSame(buf, es, n.inner, n.j, n.k, n'.inner, n'.j, n'.k);
    ItemsSame(buf, es, [], n.rs, Next(buf, es, n.k) + 1, n.b, [], n'.rs, Next(buf, es, n'.k) + 1, n'.b);
  }

  lemma StartsNested(buf: seq<char>, es: nat, a: nat, b: nat, h: Items, n: Nested, nested: bool)
    requires Line(buf, es) && a <= es && b <= es && EndsExec(buf[Next(buf, es, b)])
    requires !nested ==> ItemsAre(buf, es, h.argv, h.rs, a, b)
    requires nested ==> NestedAt(buf, es, Next(buf, es, a), n)
    ensures nested <==> buf[Next(buf, es, a)] == '('
  {
    hide ItemsAre, LineIs;
    if !nested {
      ItemsNoParen(buf, es, h.argv, h.rs, a, b);
    }
  }

  lemma NestedText(buf: seq<char>, es: nat, s: nat, n: Nested)
    requires Line(buf, es) && s <= es && NestedAt(buf, es, s, n)
    ensures s < es && n.j <= n.k <= es && n.b <= es && Next(buf, es, n.j) == Next(buf, es, s + 1)
    ensures LineIs(buf, es, n.inner, n.j, n.k) && Next(buf, es, n.k) < es && EndsLine(buf[Next(buf, es, n.k)])
    ensures ItemsAre(buf, es, [], n.rs, Next(buf, es, n.k) + 1, n.b)
  {
    hide ItemsAre, BackIs, Next;
  }

  /** The grammar makes at most one command of a line. */
  lemma OneReading(buf: seq<char>, es: nat, c: Cmd, c': Cmd)
    requires Line(buf, es) && Derives(buf, es, c) && Derives(buf, es, c')
    ensures c == c'
  {
    hide LineIs, Next;
    var t: nat :| t <= es && LineIs(buf, es, c, 0, t) && Blank(buf, t, es);
    var t': nat :| t' <= es && LineIs(buf, es, c', 0, t') && Blank(buf, t', es);
    NextIs(buf, es, t, es);
    NextIs(buf, es, t', es);
    LineSame(buf, es, c, 0, t, c', 0, t');
  }

  // ----- the parsers -----

  /** argv, with its terminating null, fits MAXARGS entries. */
  predicate ArgsFit(c: Cmd) {
    match c
    case Exec(argv) => |argv| < MAXARGS
    case Redir(cmd, _, _) => ArgsFit(cmd)
    case Pipe(l, r) => ArgsFit(l) && ArgsFit(r)
    case List(l, r) => ArgsFit(l) && ArgsFit(r)
    case Back(cmd) => ArgsFit(cmd)
  }

  /** A parser that started at s0 and stopped at s took in every word between, once. */
  ghost predicate Parsed(buf: seq<char>, es: nat, r: Option<Cmd>, s0: nat, s: nat)
    requires Line(buf, es)
  {
    r.Some? ==> s0 <= s <= es && Edge(buf, es, s) && Holds(buf, es, Files(r.value), s0, s) && ArgsFit(r.value)
  }

  lemma BlankJoin(buf: seq<char>, a: nat, b: nat, c: nat)
    requires Blank(buf, a, b) && Blank(buf, b, c)
    ensures Blank(buf, a, c)
  {
  }

  lemma NoItems(buf: seq<char>, es: nat, a: nat)
    requires a <= es <= |buf|
    ensures ItemsAre(buf, es, [], [], a, a) && Blank(buf, a, a)
  {
  }

  lemma MoreArg(buf: seq<char>, es: nat, argv: seq<Word>, rs: seq<(Word, Mode)>, a: nat, t: nat, w: Word)
    requires es <= |buf| && ItemsAre(buf, es, argv, rs, a, t) && Blank(buf, t, w.q) && IsWord(buf, es, w)
    ensures ItemsAre(buf, es, argv + [w], rs, a, w.eq)
  {
    assert (argv + [w])[..|argv + [w]| - 1] == argv;
    assert LastArg(buf, es, argv + [w], rs, a, w.eq);
  }

  lemma MoreRedir(buf: seq<char>, es: nat, argv: seq<Word>, rs: seq<(Word, Mode)>, a: nat, t: nat, j: nat, k: nat,
                  w: Word, mode: Mode)
    requires es <= |buf| && ItemsAre(buf, es, argv, rs, a, t) && Blank(buf, t, j) && Operator(buf, mode, j, k)
    requires Blank(buf, k, w.q)
    requires IsWord(buf, es, w)
    ensures ItemsAre(buf, es, argv, rs + [(w, mode)], a, w.eq)
  {
    var rs' := rs + [(w, mode)];
    assert rs'[..|rs'| - 1] == rs;
    assert LastRedir(buf, es, argv, rs', a, w.eq);
  }

  /** Redirections wrap the command in the order they are read. */
  function Wrap(c: Cmd, rs: seq<(Word, Mode)>): (r: Cmd)
    ensures ArgsFit(c) ==> ArgsFit(r)
  {
    if rs == [] then c else Redir(Wrap(c, rs[..|rs| - 1]), rs[|rs| - 1].0, rs[|rs| - 1].1)
  }

  function RedirWords(rs: seq<(Word, Mode)>): multiset<Word> {
    if rs == [] then multiset{} else RedirWords(rs[..|rs| - 1]) + multiset{rs[|rs| - 1].0}
  }

  lemma {:induction false} WrapWords(c: Cmd, rs: seq<(Word, Mode)>)
    ensures Files(Wrap(c, rs)) == Files(c) + RedirWords(rs)
  {
    if rs != [] {
      WrapWords(c, rs[..|rs| - 1]);
    }
  }

  lemma Join(buf: seq<char>, es: nat, m: multiset<Word>, n: multiset<Word>, k: multiset<Word>, a: nat, b: nat, c: nat)
    requires es <= |buf| && Holds(buf, es, m, a, b) && Holds(buf, es, n, b, c) && k == m + n
    ensures Holds(buf, es, k, a, c) && Edge(buf, es, a) && Edge(buf, es, c)
  {
    Together(buf, es, m, n, a, b, c);
  }

  lemma HoldsEdges(buf: seq<char>, es: nat, m: multiset<Word>, a: nat, b: nat)
    requires es <= |buf| && Holds(buf, es, m, a, b)
    ensures a <= b <= es && Edge(buf, es, a) && Edge(buf, es, b)
  {
  }

  lemma WordStart(buf: seq<char>, es: nat, w: Word)
    requires Line(buf, es) && IsWord(buf, es, w)
    ensures w.q < w.eq <= es && Plain(buf[w.q]) && buf[w.q] != NUL
  {
  }

  /** One turn of parseredirs' loop, at a < or >; the operator is s0..k. */
  method ParseRedir(buf: seq<char>, es: nat, s0: nat) returns (r: Option<(Word, Mode)>, s: nat, ghost k: nat)
    requires Line(buf, es) && s0 <= es && Edge(buf, es, s0) && (buf[s0] == '<' || buf[s0] == '>')
    ensures s0 < s <= es && (r.Some? ==> Holds(buf, es, multiset{r.value.0}, s0, s))
    ensures r.Some? ==>
      && Operator(buf, r.value.1, s0, k) && Blank(buf, k, r.value.0.q)
      && IsWord(buf, es, r.value.0) && Blank(buf, r.value.0.eq, s)
    ensures r.Some? ==> r.value.0.eq <= es && s == Next(buf, es, r.value.0.eq)
    ensures forall w: Word, mode, l: nat :: Operator(buf, mode, s0, l) && Blank(buf, l, w.q) && IsWord(buf, es, w) ==>
      r == Some((w, mode))
  {
    hide Holds, Edge, IsWord, Blank, Next;
    var tok, a := GetToken(buf, es, s0);
    HoldsEdges(buf, es, TokenWords(tok), s0, a);
    var file;
    file, s := GetToken(buf, es, a);
    k := if tok == Sym('+') then s0 + 2 else s0 + 1;
    NextOver(buf, es, k, a);
    forall w: Word, mode, l: nat | Operator(buf, mode, s0, l) && Blank(buf, l, w.q) && IsWord(buf, es, w)
      ensures file == Arg(w) && mode == if tok == Sym('<') then Input else if tok == Sym('+') then Append else Truncate
    {
      assert l == k;
      WordStart(buf, es, w);
      NextIs(buf, es, k, w.q);
      WordSame(buf, es, w, file.w);
    }
    if !file.Arg? {
      return None, s, k;
    }
    Join(buf, es, TokenWords(tok), TokenWords(file), multiset{file.w}, s0, a, s);
    BlankJoin(buf, k, a, file.w.q);
    r := Some((file.w, if tok == Sym('<') then Input else if tok == Sym('+') then Append else Truncate));
  }

  /** Reads redirections and adds them to those read before; m is the words they name, t where they end. */
  method ParseRedirs(buf: seq<char>, es: nat, rs0: seq<(Word, Mode)>, s0: nat, ghost argv: seq<Word>, ghost start: nat,
                     ghost t0: nat, ghost h: Option<Items>)
    returns (rs: Option<seq<(Word, Mode)>>, s: nat, ghost m: multiset<Word>, ghost t: nat)
    requires Line(buf, es) && s0 <= es && Edge(buf, es, s0)
    requires ItemsAre(buf, es, argv, rs0, start, t0) && Blank(buf, t0, s0)
    requires h.Some? ==> Remains(buf, es, argv, rs0, s0, h.value) && EndsExec(buf[Next(buf, es, h.value.b)])
    ensures s0 <= s <= es
    ensures h.Some? ==> rs.Some? && Remains(buf, es, argv, rs.value, s, h.value)
    ensures rs.Some? ==> Edge(buf, es, s) && !Space(buf[s]) && Holds(buf, es, m, s0, s)
    ensures rs.Some? ==> RedirWords(rs.value) == RedirWords(rs0) + m && !(buf[s] == '<' || buf[s] == '>')
    ensures rs.Some? ==> t0 <= t && ItemsAre(buf, es, argv, rs.value, start, t) && Blank(buf, t, s)
  {
    hide Holds, Edge, IsWord, Space, RedirWords, ItemsAre, Blank, Operator, Remains, EndsExec;
    var list := rs0;
    m, t := multiset{}, t0;
    var found;
    found, s := Peek(buf, es, s0, REDIRS);
    BlankJoin(buf, t, s0, s);
    RedirChar(buf[s]);
    if h.Some? {
      RemainsOver(buf, es, argv, list, s0, s, h.value);
    }
    while found
      invariant s0 <= s <= es && Edge(buf, es, s) && !Space(buf[s]) && Holds(buf, es, m, s0, s)
      invariant RedirWords(list) == RedirWords(rs0) + m
      invariant found <==> buf[s] == '<' || buf[s] == '>'
      invariant t0 <= t && ItemsAre(buf, es, argv, list, start, t) && Blank(buf, t, s)
      invariant h.Some? ==> Remains(buf, es, argv, list, s, h.value)
      decreases es - s
    {
      ghost var k;
      var r, a;
      r, a, k := ParseRedir(buf, es, s);
      if h.Some? {
        ghost var l := RemainsRedir(buf, es, argv, list, s, h.value);
        assert r == Some((h.value.rs[|list|].0, h.value.rs[|list|].1));
      }
      if r.None? {
        return None, a, m, t;
      }
      AddRedir(list, r.value);
      MoreRedir(buf, es, argv, list, start, t, s, k, r.value.0, r.value.1);
      Grows(buf, es, t, s, k, r.value.0, r.value.1);
      Join(buf, es, m, multiset{r.value.0}, m + multiset{r.value.0}, s0, s, a);
      list := list + [r.value];
      t := r.value.0.eq;
      ghost var m' := m + multiset{r.value.0};
      HoldsEdges(buf, es, m', s0, a);
      found, s := Peek(buf, es, a, REDIRS);
      BlankJoin(buf, t, a, s);
      RedirChar(buf[s]);
      if h.Some? {
        BlankJoin(buf, t, a, s);
        RemainsOver(buf, es, argv, list, t, s, h.value);
      }
      Join(buf, es, m', multiset{}, m', s0, a, s);
      m := m';
    }
    rs := Some(list);
  }

  /** White space makes no difference to what is left. */
  lemma RemainsOver(buf: seq<char>, es: nat, argv: seq<Word>, rs: seq<(Word, Mode)>, s: nat, s': nat, h: Items)
    requires Line(buf, es) && s <= es && s' <= es && Blank(buf, s, s') && Remains(buf, es, argv, rs, s, h)
    ensures Remains(buf, es, argv, rs, s', h)
  {
    hide ItemsAre;
    NextOver(buf, es, s, s');
  }

  lemma Grows(buf: seq<char>, es: nat, t: nat, s: nat, k: nat, w: Word, mode: Mode)
    requires es <= |buf| && Blank(buf, t, s) && Operator(buf, mode, s, k) && Blank(buf, k, w.q) && IsWord(buf, es, w)
    ensures t <= w.eq
  {
  }

  const REDIRS: seq<char> := ['<', '>']

  lemma RedirChar(c: char)
    ensures c != NUL && c in REDIRS <==> c == '<' || c == '>'
  {
  }

  lemma AddRedir(rs: seq<(Word, Mode)>, r: (Word, Mode))
    ensures RedirWords(rs + [r]) == RedirWords(rs) + multiset{r.0}
  {
    assert (rs + [r])[..|rs + [r]| - 1] == rs;
  }

  const BLOCK: seq<char> := ['(']
  const CLOSE: seq<char> := [')']
  const STOPS: seq<char> := ['|', ')', '&', ';']
  const BAR: seq<char> := ['|']
  const AMP: seq<char> := ['&']
  const SEMI: seq<char> := [';']

  /** Consumes the symbol peek has just found, and the white space after it. */
  method TakeSymbol(buf: seq<char>, es: nat, s0: nat) returns (s: nat)
    requires Line(buf, es) && s0 <= es && Edge(buf, es, s0) && Symbol(buf[s0]) && buf[s0] != '>'
    ensures s0 < s <= es && Edge(buf, es, s) && Holds(buf, es, multiset{}, s0, s) && Blank(buf, s0 + 1, s)
    ensures s == Next(buf, es, s0 + 1)
  {
    hide Holds, Edge, IsWord;
    var tok;
    tok, s := GetToken(buf, es, s0);
    HoldsEdges(buf, es, TokenWords(tok), s0, s);
  }

  /** Finds the one command that the grammar makes of the line, if there is one; it names each word of the line once. */
  method ParseCmd(buf: seq<char>, es: nat) returns (r: Option<Cmd>)
    requires Line(buf, es)
    ensures Parsed(buf, es, r, 0, es)
    ensures forall c :: Derives(buf, es, c) <==> r == Some(c)
  {
    hide Holds, IsWord, ArgsFit, LineIs, Next;
    var s;
    ghost var t;
    ghost var w: Option<Reading> := None;
    if c :| Derives(buf, es, c) {
      var e: nat :| e <= es && LineIs(buf, es, c, 0, e) && Blank(buf, e, es);
      w := Some(Reading(c, 0, e));
      NextIs(buf, es, e, es);
    }
    r, s, t := ParseLine(buf, es, 0, w);
    if r.None? {
      return;
    }
    var _, e := Peek(buf, es, s, []);
    if w.Some? {
      NextIs(buf, es, s, s);
    }
    if e != es {
      return None;
    }
    BlankJoin(buf, t, s, e);
    Join(buf, es, Files(r.value), multiset{}, Files(r.value), 0, s, e);
    assert Derives(buf, es, r.value);
    forall c | Derives(buf, es, c)
      ensures c == r.value
    {
      OneReading(buf, es, c, r.value);
    }
  }

  method ParseLine(buf: seq<char>, es: nat, s0: nat, ghost w: Option<Reading>)
    returns (r: Option<Cmd>, s: nat, ghost t: nat)
    requires Line(buf, es) && s0 <= es && Edge(buf, es, s0)
    requires Ahead(buf, es, w, s0)
    requires w.Some? ==> LineIs(buf, es, w.value.c, w.value.a, w.value.b) && EndsLine(buf[Next(buf, es, w.value.b)])
    ensures Parsed(buf, es, r, s0, s)
    ensures r.Some? ==> LineIs(buf, es, r.value, s0, t) && Blank(buf, t, s)
    ensures Found(buf, es, w, r, s)
    decreases es - s0, 4
  {
    hide Holds, IsWord, Edge, Space, LineIs, BackIs, Blank, Next;
    ghost var l, i, k, more := Exec([]), 0, 0, false;
    if w.Some? {
      l, i, k, more := LineParts(buf, es, w.value.c, w.value.a, w.value.b);
    }
    r, s, t := ParseBack(buf, es, s0, if w.Some? then Some(Reading(l, w.value.a, i)) else None);
    if r.None? {
      return;
    }
    var found, e := Peek(buf, es, s, SEMI);
    Join(buf, es, Files(r.value), multiset{}, Files(r.value), s0, s, e);
    BlankJoin(buf, t, s, e);
    if w.Some? {
      NextNext(buf, es, i);
    }
    s := e;
    if found {
      var a := TakeSymbol(buf, es, s);
      Join(buf, es, Files(r.value), multiset{}, Files(r.value), s0, s, a);
      ghost var t';
      var rest, b;
      NextNext(buf, es, s + 1);
      rest, b, t' := ParseLine(buf, es, a, if w.Some? then Some(Reading(w.value.c.right, k, w.value.b)) else None);
      if rest.None? {
        return None, b, t;
      }
      ListLine(buf, es, r.value, rest.value, s0, t, s, a, t');
      Join(buf, es, Files(r.value), Files(rest.value), Files(List(r.value, rest.value)), s0, a, b);
      r, s, t := Some(List(r.value, rest.value)), b, t';
    } else {
      BackLine(buf, es, r.value, s0, t);
    }
  }

  lemma NextNext(buf: seq<char>, es: nat, i: nat)
    requires i <= es < |buf|
    ensures Next(buf, es, Next(buf, es, i)) == Next(buf, es, i)
  {
  }

  /** The first part of parseline: a pipeline and its &s. */
  method ParseBack(buf: seq<char>, es: nat, s0: nat, ghost w: Option<Reading>)
    returns (r: Option<Cmd>, s: nat, ghost t: nat)
    requires Line(buf, es) && s0 <= es && Edge(buf, es, s0)
    requires Ahead(buf, es, w, s0)
    requires w.Some? ==> BackIs(buf, es, w.value.c, w.value.a, w.value.b) && EndsBack(buf[Next(buf, es, w.value.b)])
    ensures Parsed(buf, es, r, s0, s)
    ensures r.Some? ==> BackIs(buf, es, r.value, s0, t) && Blank(buf, t, s)
    ensures Found(buf, es, w, r, s)
    decreases es - s0, 3
  {
    hide Holds, IsWord, Edge, Space, BackIs, PipeIs, Blank, Next, Amps;
    ghost var p, i := Exec([]), 0;
    if w.Some? {
      p, i := BackParts(buf, es, w.value.c, w.value.a, w.value.b);
      AmpsEnd(buf, es, p, Next(buf, es, i), w.value.c, w.value.b);
      NextNext(buf, es, i);
    }
    r, s, t := ParsePipe(buf, es, s0, if w.Some? then Some(Reading(p, w.value.a, i)) else None);
    if r.None? {
      return;
    }
    PipeBack(buf, es, r.value, s0, t);
    var found, e := Peek(buf, es, s, AMP);
    Join(buf, es, Files(r.value), multiset{}, Files(r.value), s0, s, e);
    BlankJoin(buf, t, s, e);
    s := e;
    while found
      invariant r.Some? && Parsed(buf, es, r, s0, s) && s0 <= s <= es
      invariant BackIs(buf, es, r.value, s0, t) && Blank(buf, t, s)
      invariant found <==> buf[s] == '&'
      invariant w.Some? ==> Amps(buf, es, r.value, s, w.value.c, w.value.b)
      decreases es - s
    {
      if w.Some? {
        AmpsEnd(buf, es, r.value, s, w.value.c, w.value.b);
      }
      var a := TakeSymbol(buf, es, s);
      NextNext(buf, es, s + 1);
      found, e := Peek(buf, es, a, AMP);
      Join(buf, es, Files(r.value), multiset{}, Files(r.value), s0, s, a);
      Join(buf, es, Files(r.value), multiset{}, Files(r.value), s0, a, e);
      BackAmp(buf, es, r.value, s0, t, s);
      BlankJoin(buf, s + 1, a, e);
      t := s + 1;
      r := Some(Back(r.value));
      s := e;
    }
    if w.Some? {
      AmpsEnd(buf, es, r.value, s, w.value.c, w.value.b);
    }
  }

  method ParsePipe(buf: seq<char>, es: nat, s0: nat, ghost w: Option<Reading>)
    returns (r: Option<Cmd>, s: nat, ghost t: nat)
    requires Line(buf, es) && s0 <= es && Edge(buf, es, s0)
    requires Ahead(buf, es, w, s0)
    requires w.Some? ==> PipeIs(buf, es, w.value.c, w.value.a, w.value.b) && EndsPipe(buf[Next(buf, es, w.value.b)])
    ensures Parsed(buf, es, r, s0, s)
    ensures r.Some? ==> PipeIs(buf, es, r.value, s0, t) && Blank(buf, t, s)
    ensures Found(buf, es, w, r, s)
    decreases es - s0, 2
  {
    hide Holds, IsWord, Edge, Space, PipeIs, ExecIs, Blank, Next;
    ghost var l, i, k, more := Exec([]), 0, 0, false;
    if w.Some? {
      l, i, k, more := PipeParts(buf, es, w.value.c, w.value.a, w.value.b);
      NextNext(buf, es, i);
    }
    r, s, t := ParseExec(buf, es, s0, if w.Some? then Some(Reading(l, w.value.a, i)) else None);
    if r.None? {
      return;
    }
    var found, e := Peek(buf, es, s, BAR);
    Join(buf, es, Files(r.value), multiset{}, Files(r.value), s0, s, e);
    BlankJoin(buf, t, s, e);
    s := e;
    if found {
      var a := TakeSymbol(buf, es, s);
      Join(buf, es, Files(r.value), multiset{}, Files(r.value), s0, s, a);
      ghost var t';
      var rest, b;
      NextNext(buf, es, s + 1);
      rest, b, t' := ParsePipe(buf, es, a, if w.Some? then Some(Reading(w.value.c.right, k, w.value.b)) else None);
      if rest.None? {
        return None, b, t;
      }
      PipePipe(buf, es, r.value, rest.value, s0, t, s, a, t');
      Join(buf, es, Files(r.value), Files(rest.value), Files(Pipe(r.value, rest.value)), s0, a, b);
      r, s, t := Some(Pipe(r.value, rest.value)), b, t';
    } else {
      ExecPipe(buf, es, r.value, s0, t);
    }
  }

  /** parseexec skips white space from start to s0 before it calls this. */
  method ParseBlock(buf: seq<char>, es: nat, s0: nat, ghost start: nat, ghost n: Option<Nested>)
    returns (r: Option<Cmd>, s: nat, ghost t: nat)
    requires Line(buf, es) && s0 <= es && Edge(buf, es, s0) && Blank(buf, start, s0)
    requires n.Some? ==>
      NestedAt(buf, es, Next(buf, es, s0), n.value) && EndsExec(buf[Next(buf, es, n.value.b)]) && ArgsFit(n.value.inner)
    ensures Parsed(buf, es, r, s0, s)
    ensures r.Some? ==> ExecIs(buf, es, r.value, start, t) && Blank(buf, t, s)
    ensures n.Some? ==> n.value.b <= es && r == Some(Wrap(n.value.inner, n.value.rs)) && s == Next(buf, es, n.value.b)
    decreases es - s0, 0
  {
    hide Holds, IsWord, Edge, Space, LineIs, ExecIs, ItemsAre, Blank, Next, EndsExec, Wrap, ArgsFit, RedirWords, Files;
    t := 0;
    var found, a := Peek(buf, es, s0, BLOCK);
    if !found {
      return None, a, t;
    }
    var b := TakeSymbol(buf, es, a);
    Join(buf, es, multiset{}, multiset{}, multiset{}, s0, a, b);
    ghost var t1;
    var line, c;
    NextNext(buf, es, a + 1);
    line, c, t1 := ParseLine(buf, es, b, if n.Some? then Some(Reading(n.value.inner, n.value.j, n.value.k)) else None);
    if line.None? {
      return None, c, t;
    }
    var e;
    if n.Some? {
      NextNext(buf, es, n.value.k);
    }
    found, e := Peek(buf, es, c, CLOSE);
    if !found {
      return None, e, t;
    }
    ghost var w := Files(line.value);
    Join(buf, es, multiset{}, w, w, s0, b, c);
    Join(buf, es, w, multiset{}, w, s0, c, e);
    var rs;
    rs, s, t := CloseBlock(buf, es, e, n);
    if rs.None? {
      return None, s, t;
    }
    r := Some(Wrap(line.value, rs.value));
    WrapWords(line.value, rs.value);
    Join(buf, es, w, RedirWords(rs.value), Files(r.value), s0, e, s);
    BlankJoin(buf, start, s0, a);
    BlankJoin(buf, t1, c, e);
    BlockExec(buf, es, line.value, rs.value, start, a, b, t1, e, t, s);
  }

  /** The rest of parseblock: the closing parenthesis and the redirections after it. */
  method CloseBlock(buf: seq<char>, es: nat, e: nat, ghost n: Option<Nested>)
    returns (rs: Option<seq<(Word, Mode)>>, s: nat, ghost t: nat)
    requires Line(buf, es) && e <= es && Edge(buf, es, e) && buf[e] == ')'
    requires n.Some? ==> n.value.b <= es && RedirsAre(buf, es, n.value.rs, e + 1, n.value.b)
    requires n.Some? ==> EndsExec(buf[Next(buf, es, n.value.b)])
    ensures rs.Some? ==> e < t && e <= s <= es && Edge(buf, es, s) && Holds(buf, es, RedirWords(rs.value), e, s)
    ensures rs.Some? ==> RedirsAre(buf, es, rs.value, e + 1, t) && Blank(buf, t, s)
    ensures n.Some? ==> rs == Some(n.value.rs) && s == Next(buf, es, n.value.b)
  {
    hide Holds, IsWord, Edge, Space, ItemsAre, Blank, Next, Remains, EndsExec;
    var f := TakeSymbol(buf, es, e);
    ghost var m;
    NoItems(buf, es, e + 1);
    ghost var h: Option<Items> := None;
    if n.Some? {
      h := Some(Items([], n.value.rs, n.value.b));
      NextNext(buf, es, e + 1);
      RemainsAll(buf, es, [], n.value.rs, e + 1, n.value.b, f);
    }
    rs, s, m, t := ParseRedirs(buf, es, [], f, [], e + 1, e + 1, h);
    if rs.Some? {
      if n.Some? {
        RemainsNone(buf, es, [], rs.value, s, h.value);
      }
      Join(buf, es, multiset{}, m, RedirWords(rs.value), e, f, s);
    }
  }

  method ParseExec(buf: seq<char>, es: nat, s0: nat, ghost w: Option<Reading>)
    returns (r: Option<Cmd>, s: nat, ghost t: nat)
    requires Line(buf, es) && s0 <= es && Edge(buf, es, s0)
    requires Ahead(buf, es, w, s0)
    requires w.Some? ==> ExecIs(buf, es, w.value.c, w.value.a, w.value.b) && EndsExec(buf[Next(buf, es, w.value.b)])
    ensures Parsed(buf, es, r, s0, s)
    ensures r.Some? ==> ExecIs(buf, es, r.value, s0, t) && Blank(buf, t, s)
    ensures Found(buf, es, w, r, s)
    decreases es - s0, 1
  {
    hide Holds, IsWord, Edge, Space, RedirWords, ExecIs, Blank, Next, ItemsAre, NestedAt, Remains, Wrap;
    var found, a := Peek(buf, es, s0, BLOCK);
    NextNext(buf, es, s0);
    ghost var h, n, nested := Items([], [], 0), Nested(Exec([]), 0, 0, [], 0), false;
    if w.Some? {
      ExecSpan(buf, es, w.value.c, w.value.a, w.value.b);
      h, n, nested := ExecParts(buf, es, w.value.c, w.value.a, w.value.b);
      ReadingStarts(buf, es, w.value.c, w.value.a, w.value.b, a, h, n, nested);
    }
    if found {
      r, s, t := ParseBlock(buf, es, a, s0, if w.Some? then Some(n) else None);
    } else {
      r, s, t := ParseArgs(buf, es, a, s0, if w.Some? then Some(h) else None);
    }
    if r.Some? {
      Join(buf, es, multiset{}, Files(r.value), Files(r.value), s0, a, s);
    }
  }

  lemma ExecSpan(buf: seq<char>, es: nat, c: Cmd, a: nat, b: nat)
    requires es <= |buf| && ExecIs(buf, es, c, a, b)
    ensures a <= b <= es
  {
  }

  /** A reading that is nested starts with a parenthesis, and one that is not does not. */
  lemma ReadingStarts(buf: seq<char>, es: nat, c: Cmd, a: nat, b: nat, s: nat, h: Items, n: Nested, nested: bool)
    requires Line(buf, es) && a <= es && b <= es && s == Next(buf, es, a) && EndsExec(buf[Next(buf, es, b)])
    requires ArgsFit(c)
    requires !nested ==> c == Wrap(Exec(h.argv), h.rs) && h.b == b && ItemsAre(buf, es, h.argv, h.rs, a, b)
    requires nested ==> c == Wrap(n.inner, n.rs) && n.b == b && NestedAt(buf, es, s, n)
    ensures nested <==> buf[s] == '('
    ensures nested ==> ArgsFit(n.inner)
    ensures !nested ==> |h.argv| < MAXARGS && Remains(buf, es, [], [], s, h)
  {
    hide ItemsAre, Remains, Wrap, LineIs;
    if nested {
      WrapFits(n.inner, n.rs);
    } else {
      WrapFits(Exec(h.argv), h.rs);
      ItemsNoParen(buf, es, h.argv, h.rs, a, b);
      NextNext(buf, es, a);
      RemainsAll(buf, es, h.argv, h.rs, a, b, s);
      assert h == Items(h.argv, h.rs, b);
    }
  }

  /** The simple-command part of parseexec: arguments and redirections in any order. */
  method ParseArgs(buf: seq<char>, es: nat, s0: nat, ghost start: nat, ghost h: Option<Items>)
    returns (r: Option<Cmd>, s: nat, ghost t: nat)
    requires Line(buf, es) && s0 <= es && Edge(buf, es, s0) && Blank(buf, start, s0) && start <= s0
    requires h.Some? ==>
      Remains(buf, es, [], [], s0, h.value) && |h.value.argv| < MAXARGS && EndsExec(buf[Next(buf, es, h.value.b)])
    ensures Parsed(buf, es, r, s0, s)
    ensures r.Some? ==> ExecIs(buf, es, r.value, start, t) && Blank(buf, t, s)
    ensures h.Some? ==>
      h.value.b <= es && r == Some(Wrap(Exec(h.value.argv), h.value.rs)) && s == Next(buf, es, h.value.b)
  {
    hide Holds, IsWord, Edge, Space, RedirWords, Symbol, ExecIs, ItemsAre, Blank, Next, EndsExec, Remains, Wrap;
    var argv: seq<Word> := [];
    var rs;
    ghost var m;
    NoRedirs();
    NoItems(buf, es, start);
    rs, s, m, t := ParseRedirs(buf, es, [], s0, [], start, start, h);
    if rs.None? {
      return None, s, t;
    }
    var stop, e := Peek(buf, es, s, STOPS);
    NextStays(buf, es, s);
    Join(buf, es, m, multiset{}, m, s0, s, e);
    BlankJoin(buf, t, s, e);
    s := e;
    while !stop
      invariant rs.Some? && s0 <= s <= es && Edge(buf, es, s) && |argv| < MAXARGS
      invariant !Space(buf[s]) && buf[s] != '<' && buf[s] != '>' && (stop <==> buf[s] != NUL && buf[s] in STOPS)
      invariant h.Some? ==> Remains(buf, es, argv, rs.value, s, h.value)
      invariant Holds(buf, es, m, s0, s) && m == multiset(argv) + RedirWords(rs.value)
      invariant start <= t && ItemsAre(buf, es, argv, rs.value, start, t) && Blank(buf, t, s)
      decreases es - s
    {
      var tok, b := GetToken(buf, es, s);
      HoldsEdges(buf, es, TokenWords(tok), s, b);
      NextStays(buf, es, s);
      StopChar(buf[s]);
      if h.Some? && !tok.End? {
        RemainsArg(buf, es, argv, rs.value, s, h.value);
        ArgFound(buf, es, tok, h.value.argv[|argv|]);
      }
      if tok.End? {
        Join(buf, es, m, multiset{}, m, s0, s, b);
        BlankJoin(buf, t, s, b);
        NextOver(buf, es, s, b);
        s := b;
        break;
      }
      if !tok.Arg? {
        return None, b, t;
      }
      Join(buf, es, m, multiset{tok.w}, m + multiset{tok.w}, s0, s, b);
      BlankJoin(buf, t, s, tok.w.q);
      MoreArg(buf, es, argv, rs.value, start, t, tok.w);
      WordGrows(buf, es, t, tok.w);
      argv := argv + [tok.w];
      if |argv| >= MAXARGS {
        return None, b, t;
      }
      ghost var n;
      var c;
      if h.Some? {
        RemainsOver(buf, es, argv, rs.value, tok.w.eq, b, h.value);
      }
      rs, c, n, t := ParseRedirs(buf, es, rs.value, b, argv, start, tok.w.eq, h);
      if rs.None? {
        return None, c, t;
      }
      stop, e := Peek(buf, es, c, STOPS);
      NextStays(buf, es, c);
      BlankJoin(buf, t, c, e);
      ghost var m' := multiset(argv) + RedirWords(rs.value);
      Join(buf, es, m + multiset{tok.w}, n, m', s0, b, c);
      Join(buf, es, m', multiset{}, m', s0, c, e);
      m := m';
      s := e;
    }
    StopChar(buf[s]);
    if h.Some? {
      RemainsNone(buf, es, argv, rs.value, s, h.value);
    }
    r := Some(Wrap(Exec(argv), rs.value));
    WrapWords(Exec(argv), rs.value);
    HoldsEdges(buf, es, m, s0, s);
    ItemsExec(buf, es, argv, rs.value, start, t, s);
  }

  lemma NextStays(buf: seq<char>, es: nat, s: nat)
    requires s <= es < |buf| && !Space(buf[s])
    ensures Next(buf, es, s) == s
  {
  }

  lemma StopChar(c: char)
    ensures EndsExec(c) <==> c == NUL || c in STOPS
  {
  }

  /** The token at the start of a word is the word. */
  lemma ArgFound(buf: seq<char>, es: nat, tok: Token, w: Word)
    requires Line(buf, es) && IsWord(buf, es, w)
    requires tok.Arg? <==> buf[w.q] != NUL && Plain(buf[w.q])
    requires tok.Arg? ==> IsWord(buf, es, tok.w) && tok.w.q == w.q
    ensures tok == Arg(w)
  {
    WordStart(buf, es, w);
    WordSame(buf, es, tok.w, w);
  }

  lemma WordGrows(buf: seq<char>, es: nat, t: nat, w: Word)
    requires es <= |buf| && Blank(buf, t, w.q) && IsWord(buf, es, w)
    ensures t <= w.eq
  {
  }

  lemma NoRedirs()
    ensures RedirWords([]) == multiset{}
  {
  }

  // ----- one rule of the grammar each -----

  lemma ItemsExec(buf: seq<char>, es: nat, argv: seq<Word>, rs: seq<(Word, Mode)>, a: nat, b: nat, s: nat)
    requires es <= |buf| && ItemsAre(buf, es, argv, rs, a, b) && a <= b && Blank(buf, b, s) && s <= es
    ensures ExecIs(buf, es, Wrap(Exec(argv), rs), a, b)
  {
    hide ItemsAre, Wrap;
    assert SimpleAt(buf, es, Wrap(Exec(argv), rs), a, b, Items(argv, rs, b));
  }

  lemma BlockExec(buf: seq<char>, es: nat, inner: Cmd, rs: seq<(Word, Mode)>, a: nat, i: nat, j: nat, k: nat, l: nat,
                  b: nat, s: nat)
    requires es <= |buf| && Blank(buf, a, i) && i < |buf| && buf[i] == '(' && Blank(buf, i + 1, j)
    requires LineIs(buf, es, inner, j, k)
    requires Blank(buf, k, l) && l < |buf| && buf[l] == ')' && RedirsAre(buf, es, rs, l + 1, b) && l < b
    requires Blank(buf, b, s) && s <= es
    ensures ExecIs(buf, es, Wrap(inner, rs), a, b)
  {
    hide ItemsAre, Wrap;
    assert NestedExec(buf, es, Wrap(inner, rs), a, b, Nested(inner, j, k, rs, b), i, l);
  }

  lemma ExecPipe(buf: seq<char>, es: nat, c: Cmd, a: nat, b: nat)
    requires es <= |buf| && ExecIs(buf, es, c, a, b)
    ensures PipeIs(buf, es, c, a, b)
  {
  }

  lemma PipePipe(buf: seq<char>, es: nat, l: Cmd, r: Cmd, a: nat, i: nat, j: nat, k: nat, b: nat)
    requires es <= |buf| && ExecIs(buf, es, l, a, i) && Blank(buf, i, j) && j < |buf| && buf[j] == '|'
    requires Blank(buf, j + 1, k)
    requires PipeIs(buf, es, r, k, b)
    ensures PipeIs(buf, es, Pipe(l, r), a, b)
  {
    hide ExecIs;
    ExecSpan(buf, es, l, a, i);
    assert PipeAt(buf, es, Pipe(l, r), a, b, i, j, k);
  }

  lemma PipeBack(buf: seq<char>, es: nat, c: Cmd, a: nat, b: nat)
    requires es <= |buf| && PipeIs(buf, es, c, a, b)
    ensures BackIs(buf, es, c, a, b)
  {
  }

  lemma BackAmp(buf: seq<char>, es: nat, c: Cmd, a: nat, i: nat, j: nat)
    requires es <= |buf| && BackIs(buf, es, c, a, i) && Blank(buf, i, j) && j < es && buf[j] == '&'
    ensures BackIs(buf, es, Back(c), a, j + 1)
  {
    assert a <= i;
  }

  lemma BackLine(buf: seq<char>, es: nat, c: Cmd, a: nat, b: nat)
    requires es <= |buf| && BackIs(buf, es, c, a, b)
    ensures LineIs(buf, es, c, a, b)
  {
  }

  lemma ListLine(buf: seq<char>, es: nat, l: Cmd, r: Cmd, a: nat, i: nat, j: nat, k: nat, b: nat)
    requires es <= |buf| && BackIs(buf, es, l, a, i) && Blank(buf, i, j) && j < |buf| && buf[j] == ';'
    requires Blank(buf, j + 1, k)
    requires LineIs(buf, es, r, k, b)
    ensures LineIs(buf, es, List(l, r), a, b)
  {
    assert ListAt(buf, es, List(l, r), a, b, i, j, k);
  }

  // ----- nulterminate -----

  function WordEnds(argv: seq<Word>): set<nat> {
    set w | w in argv :: w.eq
  }

  /** The positions where nulterminate writes a NUL. */
  function Ends(c: Cmd): (e: set<nat>) {
    match c
    case Exec(argv) => WordEnds(argv)
    case Redir(cmd, file, _) => Ends(cmd) + {file.eq}
    case Pipe(l, r) => Ends(l) + Ends(r)
    case List(l, r) => Ends(l) + Ends(r)
    case Back(cmd) => Ends(cmd)
  }

  ghost function Terminated(buf: seq<char>, ends: set<nat>): (r: seq<char>)
    ensures |r| == |buf| && forall i :: 0 <= i < |buf| ==> r[i] == if i in ends then NUL else buf[i]
  {
    seq(|buf|, i requires 0 <= i < |buf| => if i in ends then NUL else buf[i])
  }

  lemma TerminatedTwice(buf: seq<char>, d: set<nat>, e: set<nat>)
    ensures Terminated(Terminated(buf, d), e) == Terminated(buf, d + e)
  {
  }

  /** Storing one more NUL. */
  lemma TerminatedOne(buf: seq<char>, d: set<nat>, k: nat)
    requires k < |buf|
    ensures Terminated(buf, d)[k := NUL] == Terminated(buf, d + {k})
  {
  }

  method NulTerminateArgs(argv: seq<Word>, buf: array<char>)
    requires forall e :: e in WordEnds(argv) ==> e < buf.Length
    modifies buf
    ensures buf[..] == Terminated(old(buf[..]), WordEnds(argv))
  {
    var i := 0;
    while i < |argv|
      invariant 0 <= i <= |argv|
      invariant buf[..] == Terminated(old(buf[..]), WordEnds(argv[..i]))
    {
      var k := argv[i].eq;
      assert k in WordEnds(argv);
      ghost var was := buf[..];
      buf[k] := NUL;
      assert buf[..] == was[k := NUL];
      TerminatedOne(old(buf[..]), WordEnds(argv[..i]), k);
      assert argv[..i + 1] == argv[..i] + [argv[i]];
      assert WordEnds(argv[..i + 1]) == WordEnds(argv[..i]) + {k};
      i := i + 1;
    }
    assert argv[..|argv|] == argv;
  }

  method NulTerminate(c: Cmd, buf: array<char>)
    requires forall e :: e in Ends(c) ==> e < buf.Length
    modifies buf
    ensures buf[..] == Terminated(old(buf[..]), Ends(c))
    decreases c
  {
    match c
    case Exec(argv) =>
      assert Ends(c) == WordEnds(argv);
      NulTerminateArgs(argv, buf);
    case Redir(cmd, file, _) =>
      assert Ends(c) == Ends(cmd) + {file.eq};
      assert file.eq in Ends(c);
      NulTerminate(cmd, buf);
      ghost var was := buf[..];
      buf[file.eq] := NUL;
      assert buf[..] == was[file.eq := NUL];
      TerminatedOne(old(buf[..]), Ends(cmd), file.eq);
    case Pipe(l, r) =>
      assert Ends(c) == Ends(l) + Ends(r);
      NulTerminate(l, buf);
      NulTerminate(r, buf);
      TerminatedTwice(old(buf[..]), Ends(l), Ends(r));
    case List(l, r) =>
      assert Ends(c) == Ends(l) + Ends(r);
      NulTerminate(l, buf);
      NulTerminate(r, buf);
      TerminatedTwice(old(buf[..]), Ends(l), Ends(r));
    case Back(cmd) =>
      assert Ends(c) == Ends(cmd);
      NulTerminate(cmd, buf);
  }

  /** Reading a C string at q gives s. */
  ghost predicate Reads(buf: seq<char>, q: nat, s: seq<char>) {
    q + |s| < |buf| && buf[q..q + |s|] == s && NUL !in s && buf[q + |s|] == NUL
  }

  lemma {:induction false} EndsOf(c: Cmd, e: nat)
    ensures e in Ends(c) <==> exists w :: w in Files(c) && w.eq == e
    decreases c
  {
    match c
    case Exec(argv) =>
      assert forall w :: w in argv <==> w in multiset(argv);
    case Redir(cmd, file, _) => EndsOf(cmd, e);
    case Pipe(l, r) => EndsOf(l, e); EndsOf(r, e);
    case List(l, r) => EndsOf(l, e); EndsOf(r, e);
    case Back(cmd) => EndsOf(cmd, e);
  }

  lemma MemberIsWord(buf: seq<char>, es: nat, c: Cmd, w: Word)
    requires Line(buf, es) && Parsed(buf, es, Some(c), 0, es)
    ensures w in Files(c) <==> IsWord(buf, es, w)
  {
    hide IsWord, ArgsFit, Edge, Files;
    assert w in Files(c) <==> Files(c)[w] > 0;
    WordInLine(buf, es, w);
  }

  lemma WordInLine(buf: seq<char>, es: nat, w: Word)
    requires es <= |buf|
    ensures IsWord(buf, es, w) ==> 0 <= w.q && w.eq <= es
  {
  }

  lemma NotAnEnd(buf: seq<char>, es: nat, c: Cmd, t: Word, i: nat)
    requires Line(buf, es) && Parsed(buf, es, Some(c), 0, es) && IsWord(buf, es, t) && t.q <= i < t.eq
    ensures i !in Ends(c)
  {
    hide Parsed, Ends, Files;
    EndsOf(c, i);
    forall w | w in Files(c)
      ensures w.eq != i
    {
      MemberIsWord(buf, es, c, w);
      NotInside(buf, es, t, w.eq);
      SharedStart(buf, es, t, w);
    }
  }

  /** After nulterminate every word of the command reads, as a C string, as it stood in the line. */
  lemma WordsReadBack(buf: seq<char>, es: nat, c: Cmd, t: Word)
    requires Line(buf, es) && Parsed(buf, es, Some(c), 0, es) && t in Files(c)
    ensures IsWord(buf, es, t) && t.eq in Ends(c) && Reads(Terminated(buf, Ends(c)), t.q, buf[t.q..t.eq])
  {
    hide Parsed, Ends, Files;
    var buf' := Terminated(buf, Ends(c));
    MemberIsWord(buf, es, c, t);
    EndsOf(c, t.eq);
    forall i | t.q <= i < t.eq
      ensures buf'[i] == buf[i]
    {
      NotAnEnd(buf, es, c, t, i);
    }
  }

  /** A word does not begin where another ends. */
  lemma SharedStart(buf: seq<char>, es: nat, t: Word, w: Word)
    requires es <= |buf| && IsWord(buf, es, t) && IsWord(buf, es, w)
    ensures w.eq != t.q
  {
    assert Plain(buf[t.q]) && Plain(buf[w.eq - 1]);
  }

  /** parsecmd as a whole: parse, then terminate the words in place. */
  method ParseCommand(buf: array<char>, es: nat) returns (r: Option<Cmd>)
    requires Line(buf[..], es)
    modifies buf
    ensures r.None? ==> buf[..] == old(buf[..])
    ensures forall c :: Derives(old(buf[..]), es, c) <==> r == Some(c)
    ensures r.Some? ==> Parsed(old(buf[..]), es, r, 0, es)
    ensures r.Some? ==> forall t :: IsWord(old(buf[..]), es, t) <==> t in Files(r.value)
    ensures r.Some? ==> forall t :: t in Files(r.value) ==>
      t.q < t.eq <= es && Reads(buf[..], t.q, old(buf[..])[t.q..t.eq])
  {
    ghost var line := buf[..];
    r := ParseCmd(buf[..], es);
    if r.Some? {
      forall e | e in Ends(r.value)
        ensures e < buf.Length
      {
        EndsOf(r.value, e);
        var w :| w in Files(r.value) && w.eq == e;
        WordsReadBack(line, es, r.value, w);
      }
      NulTerminate(r.value, buf);
      forall t | t in Files(r.value)
        ensures IsWord(line, es, t) && Reads(buf[..], t.q, line[t.q..t.eq])
      {
        WordsReadBack(line, es, r.value, t);
      }
    }
  }
}
