/** Outbound tags: the printers of service/proxy/runtime_chain.go:674, the terminal-tag parser and the
    group identifier recovered for the route view. */
module TagCodec {
  import opened Wrappers
  import opened Ids

  datatype Tag =
    | Direct
    | Block
    | NodeTag(node: Id)
    | GroupTag(group: Id)
    | MappingIn(mapping: Id)
    | MappingOut(mapping: Id)
    | MappingGroup(mapping: Id, group: Id)
    | ChainNode(chain: Id, index: nat, node: Id)
    | ChainGroup(chain: Id, index: nat, group: Id)
    | GroupNode(chain: Id, index: nat, member: nat, node: Id)
    | Terminal(chain: Id, index: nat, member: nat, node: Id)

  // ---------------------------------------------------------------- printing

  function Digit(n: nat): char
    requires n < 10
  {
    ['0', '1', '2', '3', '4', '5', '6', '7', '8', '9'][n]
  }

  function Decimal(n: nat): string {
    if n < 10 then [Digit(n)] else Decimal(n / 10) + [Digit(n % 10)]
  }

  /** The verb %02d. */
  function TwoDigits(n: nat): string {
    if n < 10 then "0" + Decimal(n) else Decimal(n)
  }

  function Print(t: Tag): string {
    match t
    case Direct => "direct"
    case Block => "block"
    case NodeTag(n) => "node-" + n
    case GroupTag(g) => "group-" + g
    case MappingIn(m) => "mapping-in-" + m
    case MappingOut(m) => "mapping-out-" + m
    case MappingGroup(m, g) => "mapping-group-" + m + "-group-" + g
    case ChainNode(c, i, n) => "node-chain-" + c + "-" + TwoDigits(i) + "-" + n
    case ChainGroup(c, i, g) => "node-chain-" + c + "-" + TwoDigits(i) + "-group-" + g
    case GroupNode(c, i, m, n) => "node-chain-" + c + "-" + TwoDigits(i) + "-node-" + TwoDigits(m) + "-" + n
    case Terminal(c, i, m, n) => "node-chain-" + c + "-" + TwoDigits(i) + "-node-" + TwoDigits(m) + "-final-" + n
  }

  predicate DashFree(s: string) {
    '-' !in s
  }

  /** Generated identifiers: not empty, letters and digits only (utils/id.go:7). */
  predicate CleanId(s: Id) {
    s != "" && DashFree(s)
  }

  predicate Clean(t: Tag) {
    match t
    case Direct => true
    case Block => true
    case NodeTag(n) => CleanId(n)
    case GroupTag(g) => CleanId(g)
    case MappingIn(m) => CleanId(m)
    case MappingOut(m) => CleanId(m)
    case MappingGroup(m, g) => CleanId(m) && CleanId(g)
    case ChainNode(c, _, n) => CleanId(c) && CleanId(n)
    case ChainGroup(c, _, g) => CleanId(c) && CleanId(g)
    case GroupNode(c, _, _, n) => CleanId(c) && CleanId(n)
    case Terminal(c, _, _, n) => CleanId(c) && CleanId(n)
  }

  // ---------------------------------------------------------------- cutting at dashes

  function Split(s: string): (r: seq<string>)
    ensures |r| >= 1
  {
    if '-' !in s then [s]
    else if s[0] == '-' then [""] + Split(s[1..])
    else var r := Split(s[1..]); [[s[0]] + r[0]] + r[1..]
  }

  lemma {:induction false} SplitAtDash(a: string, b: string)
    ensures Split(a + "-" + b) == Split(a) + Split(b)
    decreases |a|
  {
    var s := a + "-" + b;
    assert s[|a|] == '-';
    if a == "" {
      assert s[1..] == b;
    } else {
      assert s[1..] == a[1..] + "-" + b;
      SplitAtDash(a[1..], b);
      if '-' !in a {
        assert '-' !in a[1..];
        assert Split(a[1..]) == [a[1..]];
        assert [a[0]] + a[1..] == a;
        assert Split(s) == [a] + Split(b);
      } else if a[0] == '-' {
        assert Split(s) == [""] + Split(a[1..]) + Split(b);
      } else {
        var r := Split(a[1..]);
        assert '-' in a[1..];
        assert (r + Split(b))[1..] == r[1..] + Split(b);
      }
    }
  }

  lemma {:induction false} SplitPiece(a: string, b: string)
    requires DashFree(a)
    ensures Split(a + "-" + b) == [a] + Split(b)
  {
    SplitAtDash(a, b);
  }

  lemma {:induction false} DecimalDashFree(n: nat)
    ensures DashFree(Decimal(n)) && |Decimal(n)| >= 1 && (|Decimal(n)| == 1 <==> n < 10)
            && (|Decimal(n)| == 2 <==> 10 <= n < 100)
  {
    if n >= 10 {
      DecimalDashFree(n / 10);
    }
  }

  function DigitValue(c: char): nat {
    if '0' <= c <= '9' then c as nat - '0' as nat else 0
  }

  function Value(s: string): nat {
    if s == "" then 0 else Value(s[..|s| - 1]) * 10 + DigitValue(s[|s| - 1])
  }

  lemma {:induction false} ValueOfDecimal(n: nat)
    ensures Value(Decimal(n)) == n
  {
    if n >= 10 {
      ValueOfDecimal(n / 10);
      var s := Decimal(n);
      assert s[..|s| - 1] == Decimal(n / 10);
    } else {
      var s := Decimal(n);
      assert s[..0] == "";
    }
  }

  lemma ValueOfTwoDigits(n: nat)
    ensures Value(TwoDigits(n)) == n
    ensures DashFree(TwoDigits(n)) && (|TwoDigits(n)| == 2 <==> n < 100)
  {
    ValueOfDecimal(n);
    DecimalDashFree(n);
    if n < 10 {
      var s := TwoDigits(n);
      assert s[..1] == "0" && s[..1][..0] == "";
      assert Value("0") == 0;
    }
  }

  /** The dash-separated pieces of a printed tag. */
  function Pieces(t: Tag): seq<string> {
    match t
    case Direct => ["direct"]
    case Block => ["block"]
    case NodeTag(n) => ["node", n]
    case GroupTag(g) => ["group", g]
    case MappingIn(m) => ["mapping", "in", m]
    case MappingOut(m) => ["mapping", "out", m]
    case MappingGroup(m, g) => ["mapping", "group", m, "group", g]
    case ChainNode(c, i, n) => ["node", "chain", c, TwoDigits(i), n]
    case ChainGroup(c, i, g) => ["node", "chain", c, TwoDigits(i), "group", g]
    case GroupNode(c, i, m, n) => ["node", "chain", c, TwoDigits(i), "node", TwoDigits(m), n]
    case Terminal(c, i, m, n) => ["node", "chain", c, TwoDigits(i), "node", TwoDigits(m), "final", n]
  }

  function Join(pieces: seq<string>): string
    requires |pieces| > 0
  {
    if |pieces| == 1 then pieces[0] else pieces[0] + "-" + Join(pieces[1..])
  }

  lemma {:induction false} SplitOfJoin(pieces: seq<string>)
    requires |pieces| > 0 && forall i :: 0 <= i < |pieces| ==> DashFree(pieces[i])
    ensures Split(Join(pieces)) == pieces
  {
    if |pieces| > 1 {
      SplitPiece(pieces[0], Join(pieces[1..]));
      SplitOfJoin(pieces[1..]);
    }
  }

  lemma Join2(a: string, b: string)
    ensures Join([a, b]) == a + "-" + b
  {
    assert [a, b][1..] == [b];
  }

  lemma Join3(a: string, b: string, c: string)
    ensures Join([a, b, c]) == a + "-" + b + "-" + c
  {
    assert [a, b, c][1..] == [b, c];
    Join2(b, c);
  }

  lemma Join5(a: string, b: string, c: string, d: string, e: string)
    ensures Join([a, b, c, d, e]) == a + "-" + b + "-" + c + "-" + d + "-" + e
  {
    assert [a, b, c, d, e][1..] == [b, c, d, e] && [b, c, d, e][1..] == [c, d, e];
    Join3(c, d, e);
  }

  lemma Join6(a: string, b: string, c: string, d: string, e: string, f: string)
    ensures Join([a, b, c, d, e, f]) == a + "-" + b + "-" + c + "-" + d + "-" + e + "-" + f
  {
    assert [a, b, c, d, e, f][1..] == [b, c, d, e, f];
    Join5(b, c, d, e, f);
  }

  lemma Join7(a: string, b: string, c: string, d: string, e: string, f: string, g: string)
    ensures Join([a, b, c, d, e, f, g]) == a + "-" + b + "-" + c + "-" + d + "-" + e + "-" + f + "-" + g
  {
    assert [a, b, c, d, e, f, g][1..] == [b, c, d, e, f, g];
    Join6(b, c, d, e, f, g);
  }

  lemma Join8(a: string, b: string, c: string, d: string, e: string, f: string, g: string, h: string)
    ensures Join([a, b, c, d, e, f, g]) == a + "-" + b + "-" + c + "-" + d + "-" + e + "-" + f + "-" + g
    ensures Join([a, b, c, d, e, f, g, h]) == a + "-" + b + "-" + c + "-" + d + "-" + e + "-" + f + "-" + g + "-" + h
  {
    Join7(a, b, c, d, e, f, g);
    assert [a, b, c, d, e, f, g, h][1..] == [b, c, d, e, f, g, h];
    Join7(b, c, d, e, f, g, h);
  }

  lemma HeadLiterals()
    ensures "node-" == "node" + "-" && "group-" == "group" + "-"
    ensures "mapping-in-" == "mapping" + "-" + "in" + "-" && "mapping-out-" == "mapping" + "-" + "out" + "-"
    ensures "mapping-group-" == "mapping" + "-" + "group" + "-"
    ensures "node-chain-" == "node" + "-" + "chain" + "-"
  {
  }

  lemma MiddleLiterals(x: string)
    ensures x + "-group-" == x + "-" + "group" + "-"
    ensures x + "-node-" == x + "-" + "node" + "-"
    ensures x + "-final-" == x + "-" + "final" + "-"
  {
  }

  lemma PrintJoinsShort(t: Tag)
    requires !t.ChainNode? && !t.ChainGroup? && !t.GroupNode? && !t.Terminal?
    ensures Print(t) == Join(Pieces(t))
  {
    HeadLiterals();
    match t
    case Direct =>
    case Block =>
    case NodeTag(n) => Join2("node", n);
    case GroupTag(g) => Join2("group", g);
    case MappingIn(m) => Join3("mapping", "in", m);
    case MappingOut(m) => Join3("mapping", "out", m);
    case MappingGroup(m, g) =>
      Join5("mapping", "group", m, "group", g);
      MiddleLiterals("mapping-group-" + m);
  }

  lemma PrintJoinsPieces(t: Tag)
    ensures Print(t) == Join(Pieces(t))
  {
    HeadLiterals();
    match t
    case ChainNode(c, i, n) => Join5("node", "chain", c, TwoDigits(i), n);
    case ChainGroup(c, i, g) =>
      Join6("node", "chain", c, TwoDigits(i), "group", g);
      MiddleLiterals("node-chain-" + c + "-" + TwoDigits(i));
    case GroupNode(c, i, m, n) =>
      Join8("node", "chain", c, TwoDigits(i), "node", TwoDigits(m), n, "");
      MiddleLiterals("node-chain-" + c + "-" + TwoDigits(i));
    case Terminal(c, i, m, n) =>
      Join8("node", "chain", c, TwoDigits(i), "node", TwoDigits(m), "final", n);
      MiddleLiterals("node-chain-" + c + "-" + TwoDigits(i));
      MiddleLiterals("node-chain-" + c + "-" + TwoDigits(i) + "-node-" + TwoDigits(m));
    case _ => PrintJoinsShort(t);
  }

  lemma PrintSplits(t: Tag)
    requires Clean(t)
    ensures Split(Print(t)) == Pieces(t)
  {
    if t.ChainNode? || t.ChainGroup? || t.GroupNode? || t.Terminal? {
      ValueOfTwoDigits(t.index);
    }
    if t.GroupNode? || t.Terminal? {
      ValueOfTwoDigits(t.member);
    }
    PrintJoinsPieces(t);
    SplitOfJoin(Pieces(t));
  }

  /** All printers together are injective on generated identifiers, for indices of any size. */
  lemma PrintersAreInjective(a: Tag, b: Tag)
    requires Clean(a) && Clean(b) && Print(a) == Print(b)
    ensures a == b
  {
    PrintSplits(a);
    PrintSplits(b);
    var p, q := Pieces(a), Pieces(b);
    assert p == q;
    if |p| >= 5 && p[0] == "node" {
      ValueOfTwoDigits(a.index);
      ValueOfTwoDigits(b.index);
      assert p[3] == TwoDigits(a.index) && q[3] == TwoDigits(b.index);
    }
    if |p| >= 7 {
      ValueOfTwoDigits(a.member);
      ValueOfTwoDigits(b.member);
      assert p[5] == TwoDigits(a.member) && q[5] == TwoDigits(b.member);
    }
  }

  // ---------------------------------------------------------------- the terminal-tag parser

  predicate IsDigit(c: char) {
    '0' <= c <= '9'
  }

  /** The pattern matches with its first group k characters long; a dot never matches a line feed. */
  predicate MatchesAt(s: string, k: nat) {
    && k > 0 && |s| >= 11 + k + 19
    && s[..11] == "node-chain-"
    && '\n' !in s[11..11 + k]
    && s[11 + k] == '-' && IsDigit(s[12 + k]) && IsDigit(s[13 + k])
    && s[14 + k..20 + k] == "-node-"
    && IsDigit(s[20 + k]) && IsDigit(s[21 + k])
    && s[22 + k..29 + k] == "-final-"
    && '\n' !in s[29 + k..]
  }

  /** Greedy match: the longest first group wins. */
  function ParseFrom(s: string, k: nat): Option<(string, nat, nat)> {
    if k == 0 then None
    else if MatchesAt(s, k) then Some((s[11..11 + k], Value(s[12 + k..14 + k]), Value(s[20 + k..22 + k])))
    else ParseFrom(s, k - 1)
  }

  /** parseNodeChainGroupTerminalNodeTag (runtime_chain.go:694). */
  function ParseTerminal(s: string): Option<(string, nat, nat)> {
    ParseFrom(s, |s|)
  }

  lemma SplitAt(s: string, p: nat)
    requires p < |s| && s[p] == '-'
    ensures Split(s) == Split(s[..p]) + Split(s[p + 1..])
  {
    assert s == s[..p] + "-" + s[p + 1..];
    SplitAtDash(s[..p], s[p + 1..]);
  }

  /** Cut a prefix of s at its last piece. */
  lemma SplitPrefix(s: string, from: nat, to: nat)
    requires 0 < from <= to <= |s| && s[from - 1] == '-'
    ensures Split(s[..to]) == Split(s[..from - 1]) + Split(s[from..to])
  {
    SplitAt(s[..to], from - 1);
    assert s[..to][..from - 1] == s[..from - 1] && s[..to][from..] == s[from..to];
  }

  lemma MatchIndices(s: string, k: nat)
    requires MatchesAt(s, k)
    ensures Split(s[..22 + k]) == Split(s[..11 + k]) + [s[12 + k..14 + k], "node", s[20 + k..22 + k]]
  {
    MatchDashes(s, k);
    var ii, mm := s[12 + k..14 + k], s[20 + k..22 + k];
    assert '-' !in ii && '-' !in mm;
    SplitPrefix(s, 20 + k, 22 + k);
    SplitPrefix(s, 15 + k, 19 + k);
    SplitPrefix(s, 12 + k, 14 + k);
    var x := Split(s[..11 + k]);
    assert Split(s[..14 + k]) == x + [ii];
    assert Split(s[..19 + k]) == x + [ii, "node"];
  }

  lemma MatchTail(s: string, k: nat)
    requires MatchesAt(s, k)
    ensures Split(s) == Split(s[..11 + k]) + [s[12 + k..14 + k], "node", s[20 + k..22 + k], "final"]
            + Split(s[29 + k..])
  {
    MatchDashes(s, k);
    MatchIndices(s, k);
    MatchFinal(s, k);
  }

  lemma MatchFinal(s: string, k: nat)
    requires MatchesAt(s, k)
    ensures Split(s) == Split(s[..22 + k]) + ["final"] + Split(s[29 + k..])
  {
    MatchDashes(s, k);
    SplitAt(s, 28 + k);
    SplitPrefix(s, 23 + k, 28 + k);
  }

  lemma MatchHead(s: string, k: nat)
    requires MatchesAt(s, k)
    ensures Split(s[..11 + k]) == ["node", "chain"] + Split(s[11..11 + k])
  {
    MatchDashes(s, k);
    SplitPrefix(s, 11, 11 + k);
    SplitPrefix(s, 5, 10);
    assert Split(s[..10]) == ["node", "chain"];
  }

  lemma MatchPieces(s: string, k: nat)
    requires MatchesAt(s, k)
    ensures var c, rest := Split(s[11..11 + k]), Split(s[29 + k..]);
            Split(s) == ["node", "chain"] + c + [s[12 + k..14 + k], "node", s[20 + k..22 + k], "final"] + rest
  {
    MatchTail(s, k);
    MatchHead(s, k);
  }

  lemma SliceOfSlice(s: string, a: nat, b: nat, i: nat, j: nat)
    requires a <= b <= |s| && i <= j <= b - a
    ensures s[a..b][i..j] == s[a + i..a + j]
  {
    var l, r := s[a..b][i..j], s[a + i..a + j];
    assert |l| == |r| && forall x :: 0 <= x < |l| ==> l[x] == s[a..b][i + x] == r[x];
  }

  lemma MatchDashes(s: string, k: nat)
    requires MatchesAt(s, k)
    ensures s[4] == '-' && s[10] == '-' && s[11 + k] == '-' && s[14 + k] == '-' && s[19 + k] == '-'
    ensures s[22 + k] == '-' && s[28 + k] == '-'
    ensures s[..4] == "node" && s[5..10] == "chain" && s[15 + k..19 + k] == "node" && s[23 + k..28 + k] == "final"
  {
    var head, mid, fin := s[..11], s[14 + k..20 + k], s[22 + k..29 + k];
    assert s[..4] == head[..4] && s[5..10] == head[5..10] && s[4] == head[4] && s[10] == head[10];
    SliceOfSlice(s, 14 + k, 20 + k, 1, 5);
    SliceOfSlice(s, 22 + k, 29 + k, 1, 6);
    assert mid[1..5] == "node" && fin[1..6] == "final";
    assert s[14 + k] == mid[0] && s[19 + k] == mid[5];
    assert s[22 + k] == fin[0] && s[28 + k] == fin[6];
  }

  lemma SplitDashFree(s: string)
    requires |Split(s)| == 1
    ensures Split(s) == [s]
  {
    if '-' in s {
      SplitHasDash(s);
    }
  }

  lemma {:induction false} SplitHasDash(s: string)
    requires '-' in s
    ensures |Split(s)| >= 2
  {
    if s[0] != '-' {
      SplitHasDash(s[1..]);
    }
  }

  /** Only terminal tags have eight pieces, and none has more. */
  lemma EightPieces(t: Tag)
    ensures |Pieces(t)| <= 8 && (|Pieces(t)| == 8 <==> t.Terminal?)
  {
  }

  lemma TerminalPieces(t: Tag)
    requires t.Terminal?
    ensures var p := Pieces(t); p[2] == t.chain && p[3] == TwoDigits(t.index) && p[5] == TwoDigits(t.member)
  {
  }

  lemma MatchHasEightPieces(p: seq<string>, c: seq<string>, ii: string, mm: string, rest: seq<string>)
    requires p == ["node", "chain"] + c + [ii, "node", mm, "final"] + rest && |c| >= 1 && |rest| >= 1 && |p| <= 8
    ensures |p| == 8 && |c| == 1 && p[2] == c[0] && p[3] == ii && p[5] == mm
  {
  }

  /** On a printed tag the pattern can match in one way only, and only on terminal tags whose two
      indices have two digits. */
  lemma MatchIsTerminal(t: Tag, k: nat)
    requires Clean(t) && MatchesAt(Print(t), k)
    ensures t.Terminal? && t.index < 100 && t.member < 100 && k == |t.chain|
    ensures var s := Print(t);
            s[11..11 + k] == t.chain && s[12 + k..14 + k] == TwoDigits(t.index)
              && s[20 + k..22 + k] == TwoDigits(t.member)
  {
    var s := Print(t);
    PrintSplits(t);
    MatchPieces(s, k);
    EightPieces(t);
    var c := Split(s[11..11 + k]);
    MatchHasEightPieces(Pieces(t), c, s[12 + k..14 + k], s[20 + k..22 + k], Split(s[29 + k..]));
    SplitDashFree(s[11..11 + k]);
    TerminalPieces(t);
    TwoDigitsIsShort(t.index);
    TwoDigitsIsShort(t.member);
  }

  lemma TwoDigitsIsShort(n: nat)
    ensures |TwoDigits(n)| == 2 ==> n < 100
  {
    ValueOfTwoDigits(n);
  }

  lemma TerminalMatches(t: Tag)
    requires Clean(t) && t.Terminal? && t.index < 100 && t.member < 100
    requires '\n' !in t.chain && '\n' !in t.node
    ensures MatchesAt(Print(t), |t.chain|)
  {
    var s, k := Print(t), |t.chain|;
    ValueOfTwoDigits(t.index);
    ValueOfTwoDigits(t.member);
    DigitsOnly(t.index);
    DigitsOnly(t.member);
    var ii, mm := TwoDigits(t.index), TwoDigits(t.member);
    assert s == "node-chain-" + t.chain + "-" + ii + "-node-" + mm + "-final-" + t.node;
    assert s[11..11 + k] == t.chain;
    assert s[12 + k..14 + k] == ii && s[12 + k] == ii[0] && s[13 + k] == ii[1];
    assert s[14 + k..20 + k] == "-node-";
    assert s[20 + k..22 + k] == mm && s[20 + k] == mm[0] && s[21 + k] == mm[1];
    assert s[22 + k..29 + k] == "-final-";
    assert s[29 + k..] == t.node;
  }

  lemma {:induction false} DigitsOnly(n: nat)
    ensures forall i :: 0 <= i < |Decimal(n)| ==> IsDigit(Decimal(n)[i])
    ensures forall i :: 0 <= i < |TwoDigits(n)| ==> IsDigit(TwoDigits(n)[i])
  {
    if n >= 10 {
      DigitsOnly(n / 10);
    }
  }

  lemma {:induction false} ParseFromFinds(s: string, k: nat, at: nat)
    requires MatchesAt(s, at) && at <= k
    requires forall j :: MatchesAt(s, j) ==> j == at
    ensures ParseFrom(s, k) == Some((s[11..11 + at], Value(s[12 + at..14 + at]), Value(s[20 + at..22 + at])))
  {
    if k != at {
      ParseFromFinds(s, k - 1, at);
    }
  }

  lemma {:induction false} ParseFromFails(s: string, k: nat)
    requires forall j :: !MatchesAt(s, j)
    ensures ParseFrom(s, k) == None
  {
    if k > 0 {
      ParseFromFails(s, k - 1);
    }
  }

  /** The parser inverts the terminal printer exactly when both indices are below 100, and accepts no
      other printed tag. */
  lemma ParserInvertsPrinterIff(t: Tag)
    requires Clean(t) && '\n' !in Print(t)
    ensures ParseTerminal(Print(t)) ==
            if t.Terminal? && t.index < 100 && t.member < 100 then Some((t.chain, t.index, t.member)) else None
  {
    var s := Print(t);
    forall j | MatchesAt(s, j)
      ensures t.Terminal? && t.index < 100 && t.member < 100 && j == |t.chain|
    {
      MatchIsTerminal(t, j);
    }
    if t.Terminal? && t.index < 100 && t.member < 100 {
      NoLineFeed(t);
      TerminalMatches(t);
      MatchIsTerminal(t, |t.chain|);
      ParseFromFinds(s, |s|, |t.chain|);
      ValueOfTwoDigits(t.index);
      ValueOfTwoDigits(t.member);
    } else {
      ParseFromFails(s, |s|);
    }
  }

  lemma NoLineFeed(t: Tag)
    requires t.Terminal? && '\n' !in Print(t)
    ensures '\n' !in t.chain && '\n' !in t.node
  {
    var s := Print(t);
    assert s[11..11 + |t.chain|] == t.chain;
    assert s[|s| - |t.node|..] == t.node;
  }

  // ---------------------------------------------------------------- the group shown for a route

  predicate HasPrefix(s: string, p: string) {
    |p| <= |s| && s[..|p|] == p
  }

  predicate OccursAt(s: string, p: string, i: nat) {
    i + |p| <= |s| && s[i..i + |p|] == p
  }

  function LastFrom(s: string, p: string, k: nat): Option<nat> {
    if OccursAt(s, p, k) then Some(k) else if k == 0 then None else LastFrom(s, p, k - 1)
  }

  /** strings.LastIndex. */
  function LastIndex(s: string, p: string): Option<nat> {
    LastFrom(s, p, |s|)
  }

  /** runtimeRouteGroupID (runtime_route.go:47). */
  function RouteGroupId(tag: string): string {
    if HasPrefix(tag, "mapping-group-") && LastIndex(tag, "-group-").Some? then
      CutAfter(tag, LastIndex(tag, "-group-").value)
    else if HasPrefix(tag, "node-chain-") && LastIndex(tag, "-group-").Some? then
      CutAfter(tag, LastIndex(tag, "-group-").value)
    else if HasPrefix(tag, "group-") then tag[6..] else tag
  }

  function CutAfter(tag: string, i: nat): string {
    if i + 7 <= |tag| then tag[i + 7..] else ""
  }

  lemma {:induction false} LastFromFinds(s: string, p: string, k: nat, at: nat)
    requires at <= k && OccursAt(s, p, at) && forall j :: at < j <= k ==> !OccursAt(s, p, j)
    ensures LastFrom(s, p, k) == Some(at)
  {
    if k != at {
      LastFromFinds(s, p, k - 1, at);
    }
  }

  lemma LastGroupMark(head: string, g: Id)
    requires DashFree(g)
    ensures LastIndex(head + "-group-" + g, "-group-") == Some(|head|)
  {
    var s, mark := head + "-group-" + g, "-group-";
    assert s[|head|..|head| + 7] == mark;
    forall j | |head| < j <= |s|
      ensures !OccursAt(s, mark, j)
    {
      if j + 7 <= |s| {
        assert s[j + 6] == g[j + 6 - |head| - 7];
        assert s[j..j + 7][6] == s[j + 6] && mark[6] == '-';
      }
    }
    LastFromFinds(s, mark, |s|, |head|);
  }

  lemma OtherHead(s: string, p: string)
    requires |s| > 0 && |p| > 0 && s[0] != p[0]
    ensures !HasPrefix(s, p)
  {
    if |p| <= |s| {
      assert s[..|p|][0] == s[0];
    }
  }

  /** The route view recovers the group from every kind of group tag. */
  lemma RouteGroupInvertsPrinters(t: Tag)
    requires Clean(t) && (t.GroupTag? || t.MappingGroup? || t.ChainGroup?)
    ensures RouteGroupId(Print(t)) == t.group
  {
    var s := Print(t);
    match t
    case GroupTag(g) =>
      OtherHead(s, "mapping-group-");
      OtherHead(s, "node-chain-");
      assert s[..6] == "group-" && s[6..] == g;
    case MappingGroup(m, g) =>
      var head := "mapping-group-" + m;
      LastGroupMark(head, g);
      assert s == head + "-group-" + g;
      assert s[..14] == "mapping-group-";
      assert s[|head| + 7..] == g;
    case ChainGroup(c, i, g) =>
      var head := "node-chain-" + c + "-" + TwoDigits(i);
      LastGroupMark(head, g);
      assert s == head + "-group-" + g;
      assert s[..11] == "node-chain-";
      assert s[|head| + 7..] == g;
  }

  // ---------------------------------------------------------------- members of a terminal group

  /** The identifier staticSelectorDynamicMembers (runtime_plan.go:688) gives the member behind a
      terminal tag: the group's own node when the tag parses, otherwise the final node. */
  function TerminalMemberId(chain: Id, index: nat, member: nat, final: Id, groupNodes: seq<Id>): Id {
    var tag := Print(Terminal(chain, index, member, final));
    match ParseTerminal(tag)
    case Some(p) => if p.2 < |groupNodes| && groupNodes[p.2] != "" then groupNodes[p.2] else tag
    case None => final
  }

  function TerminalMemberIds(chain: Id, index: nat, final: Id, groupNodes: seq<Id>, n: nat): (ids: seq<Id>)
    requires n <= |groupNodes|
    ensures |ids| == n
  {
    if n == 0 then []
    else
      TerminalMemberIds(chain, index, final, groupNodes, n - 1)
      + [TerminalMemberId(chain, index, n - 1, final, groupNodes)]
  }

  lemma {:induction false} TerminalMemberIdsAt(chain: Id, index: nat, final: Id, groupNodes: seq<Id>, n: nat)
    requires n <= |groupNodes| && CleanId(chain) && CleanId(final) && '\n' !in chain && '\n' !in final
    requires "" !in groupNodes
    ensures forall k :: 0 <= k < n ==>
              TerminalMemberIds(chain, index, final, groupNodes, n)[k] ==
              if index < 100 && k < 100 then groupNodes[k] else final
  {
    if n > 0 {
      TerminalMemberIdsAt(chain, index, final, groupNodes, n - 1);
      var t := Terminal(chain, index, n - 1, final);
      DigitsOnly(index);
      DigitsOnly(n - 1);
      PrintHasNoLineFeed(t);
      ParserInvertsPrinterIff(t);
      var ids := TerminalMemberIds(chain, index, final, groupNodes, n);
      var init := TerminalMemberIds(chain, index, final, groupNodes, n - 1);
      assert ids[n - 1] == if index < 100 && n - 1 < 100 then groupNodes[n - 1] else final;
      assert forall k :: 0 <= k < n - 1 ==> ids[k] == init[k];
    }
  }

  lemma PrintHasNoLineFeed(t: Tag)
    requires t.Terminal? && '\n' !in t.chain && '\n' !in t.node
    ensures '\n' !in Print(t)
  {
    DigitsOnly(t.index);
    DigitsOnly(t.member);
    assert '\n' !in TwoDigits(t.index);
    assert '\n' !in TwoDigits(t.member);
  }

  /** De-duplication by identifier keeps every member of a rewritten terminal group exactly when the
      group sits below index 100 and has at most 100 nodes, or 101 and the final node is not among the
      first hundred; a single member is always kept. */
  lemma NoMemberLostIff(chain: Id, index: nat, final: Id, groupNodes: seq<Id>)
    requires CleanId(chain) && CleanId(final) && '\n' !in chain && '\n' !in final
    requires Distinct(groupNodes) && "" !in groupNodes
    ensures var n := |groupNodes|;
            var ids := TerminalMemberIds(chain, index, final, groupNodes, n);
            Unique(ids) == ids <==>
              n <= 1 || (index < 100 && (n <= 100 || (n == 101 && final !in groupNodes[..100])))
  {
    var ids := TerminalMemberIds(chain, index, final, groupNodes, |groupNodes|);
    TerminalMemberIdsAt(chain, index, final, groupNodes, |groupNodes|);
    UniqueContents(ids);
    if KeepsAll(index, final, groupNodes) {
      AllDifferent(index, final, groupNodes, ids);
      UniqueOfNormal(ids);
    } else {
      var i, j := TwoAlike(index, final, groupNodes, ids);
    }
  }

  predicate KeepsAll(index: nat, final: Id, groupNodes: seq<Id>) {
    var n := |groupNodes|;
    n <= 1 || (index < 100 && (n <= 100 || (n == 101 && final !in groupNodes[..100])))
  }

  lemma AllDifferent(index: nat, final: Id, groupNodes: seq<Id>, ids: seq<Id>)
    requires |ids| == |groupNodes| && Distinct(groupNodes) && "" !in groupNodes && final != ""
    requires forall k :: 0 <= k < |ids| ==> ids[k] == if index < 100 && k < 100 then groupNodes[k] else final
    requires KeepsAll(index, final, groupNodes)
    ensures Distinct(ids) && "" !in ids
  {
    forall i, j | 0 <= i < j < |ids|
      ensures ids[i] != ids[j]
    {
      if j >= 100 {
        assert groupNodes[..100][i] == groupNodes[i];
      }
    }
  }

  lemma TwoAlike(index: nat, final: Id, groupNodes: seq<Id>, ids: seq<Id>) returns (i: nat, j: nat)
    requires |ids| == |groupNodes|
    requires forall k :: 0 <= k < |ids| ==> ids[k] == if index < 100 && k < 100 then groupNodes[k] else final
    requires !KeepsAll(index, final, groupNodes)
    ensures i < j < |ids| && ids[i] == ids[j]
  {
    if index >= 100 {
      i, j := 0, 1;
    } else if |groupNodes| == 101 {
      var k :| 0 <= k < 100 && groupNodes[..100][k] == final;
      i, j := k, 100;
    } else {
      i, j := 100, 101;
    }
  }

  lemma {:induction false} DecimalNotEmpty(n: nat)
    ensures Decimal(n) != ""
  {
  }

  lemma DecimalsDiffer(a: nat, b: nat)
    requires a != b
    ensures Decimal(a) != Decimal(b)
  {
    ValueOfDecimal(a);
    ValueOfDecimal(b);
  }

  /** A group of 102 nodes named by their numbers. */
  function ManyNodes(): seq<Id> {
    seq(102, i requires 0 <= i < 102 => Decimal(i))
  }

  /** Two of its members get the identifier of the node behind them, and one is lost. */
  lemma LargeGroupLosesMember()
    ensures var ids := TerminalMemberIds("c", 0, "f", ManyNodes(), 102);
            Distinct(ManyNodes()) && ids[100] == ids[101] == "f" && Unique(ids) != ids
  {
    var nodes := ManyNodes();
    forall i, j | 0 <= i < j < |nodes|
      ensures nodes[i] != nodes[j]
    {
      DecimalsDiffer(i, j);
    }
    forall i | 0 <= i < |nodes|
      ensures nodes[i] != ""
    {
      DecimalNotEmpty(i);
    }
    TerminalMemberIdsAt("c", 0, "f", nodes, 102);
    NoMemberLostIff("c", 0, "f", nodes);
  }
}
