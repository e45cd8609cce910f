/**
  The text of a failure scenario (command.py:77 and 127-139): `<scenario>`, one
  `<at>` block per phase preceded by a comment with the failure counts, and
  `</scenario>`, one element per line.
*/
module ScenarioText {
  import opened Scenario

  /** The decimal digit for `d`. */
  function DigitChar(d: nat): (c: char)
    requires d < 10
    ensures '0' <= c <= '9' && c as int - '0' as int == d
  {
    "0123456789"[d]
  }

  predicate IsDigits(s: string)
  {
    forall i :: 0 <= i < |s| ==> '0' <= s[i] <= '9'
  }

  /** Python's `str` of a non-negative int: decimal digits without leading zeros. */
  function NatToDecimal(n: nat): (s: string)
    ensures |s| >= 1 && IsDigits(s)
    ensures s[0] == '0' ==> n == 0
    decreases n
  {
    if n < 10 then [DigitChar(n)] else NatToDecimal(n / 10) + [DigitChar(n % 10)]
  }

  /** Python's `str` of an int: a minus sign before the digits of a negative one. */
  function IntToDecimal(i: int): (s: string)
  {
    if i < 0 then "-" + NatToDecimal(-i) else NatToDecimal(i)
  }

  /** The value of a string of decimal digits. */
  function DecimalValue(s: string): (n: nat)
    requires IsDigits(s)
  {
    if s == [] then 0 else DecimalValue(s[..|s| - 1]) * 10 + (s[|s| - 1] as int - '0' as int)
  }

  /** The value of a decimal integer with an optional leading minus sign. */
  function IntValue(s: string): (i: int)
    requires s != [] && (if s[0] == '-' then IsDigits(s[1..]) else IsDigits(s))
  {
    if s[0] == '-' then -(DecimalValue(s[1..]) as int) else DecimalValue(s)
  }

  /** Reading back a written number gives the number. */
  lemma {:induction false} NatToDecimalRoundTrip(n: nat)
    ensures DecimalValue(NatToDecimal(n)) == n
    decreases n
  {
    if n >= 10 {
      NatToDecimalRoundTrip(n / 10);
      var s := NatToDecimal(n);
      assert s[..|s| - 1] == NatToDecimal(n / 10);
    }
  }

  /** Reading back a written int, sign included, gives the int. */
  lemma IntToDecimalRoundTrip(i: int)
    ensures IntToDecimal(i) != []
    ensures IntToDecimal(i)[0] == '-' <==> i < 0
    ensures IntToDecimal(i)[0] == '-' ==> IsDigits(IntToDecimal(i)[1..])
    ensures IntToDecimal(i)[0] != '-' ==> IsDigits(IntToDecimal(i))
    ensures IntValue(IntToDecimal(i)) == i
  {
    var s := IntToDecimal(i);
    if i < 0 {
      var digits := NatToDecimal(-i);
      assert s == "-" + digits;
      assert s[1..] == digits;
      NatToDecimalRoundTrip(-i);
      assert IntValue(s) == -(DecimalValue(digits) as int);
    } else {
      assert s == NatToDecimal(i);
      assert '0' <= s[0] <= '9';
      NatToDecimalRoundTrip(i);
      assert IntValue(s) == DecimalValue(s);
    }
  }

  function DirectionName(d: Direction): (s: string)
  {
    match d
    case Left => "LEFT"
    case Up => "UP"
    case Right => "RIGHT"
    case Down => "DOWN"
  }

  function ValueName(v: Value): (s: string)
  {
    if v == Working then "WORKING" else "DISABLED"
  }

  /** `<set-isl-state satid=".." dir=".." value=".." />` for a link. */
  function LinkLine(l: Link, v: Value): (s: string)
  {
    "\t\t<set-isl-state satid=\"" + NatToDecimal(l.sat) + "\" dir=\"" + DirectionName(l.dir)
      + "\" value=\"" + ValueName(v) + "\" />"
  }

  /** `<set-isl-state satid=".." value=".." />` for a node. */
  function NodeLine(n: Node, v: Value): (s: string)
  {
    "\t\t<set-isl-state satid=\"" + NatToDecimal(n) + "\" value=\"" + ValueName(v) + "\" />"
  }

  /** One directive line per link, in the order given. */
  function LinkLines(ls: seq<Link>, v: Value): (lines: seq<string>)
    ensures |lines| == |ls|
    ensures forall k :: 0 <= k < |ls| ==> lines[k] == LinkLine(ls[k], v)
  {
    if ls == [] then [] else LinkLines(ls[..|ls| - 1], v) + [LinkLine(ls[|ls| - 1], v)]
  }

  /** One directive line per node, in the order given. */
  function NodeLines(ns: seq<Node>, v: Value): (lines: seq<string>)
    ensures |lines| == |ns|
    ensures forall k :: 0 <= k < |ns| ==> lines[k] == NodeLine(ns[k], v)
  {
    if ns == [] then [] else NodeLines(ns[..|ns| - 1], v) + [NodeLine(ns[|ns| - 1], v)]
  }

  /** The comment with the failure counts after the phase. */
  function CommentLine(b: Block): (s: string)
  {
    "\t<!-- LinkFailures: " + NatToDecimal(b.linkFailures) + "; NodeFailures: " + NatToDecimal(b.nodeFailures) + " -->"
  }

  /** `<at t="..s">`. */
  function AtLine(b: Block): (s: string)
  {
    "\t<at t=\"" + IntToDecimal(b.at) + "s\">"
  }

  /**
    The comment line, the `<at>` line, the repaired links, the failed links,
    the repaired nodes, the failed nodes, and `</at>`.
  */
  function BlockLines(b: Block): (lines: seq<string>)
  {
    [CommentLine(b), AtLine(b)]
      + LinkLines(b.repairedLinks, Working) + LinkLines(b.failedLinks, Disabled)
      + NodeLines(b.repairedNodes, Working) + NodeLines(b.failedNodes, Disabled)
      + ["\t</at>"]
  }

  function AllBlockLines(bs: seq<Block>): (lines: seq<string>)
  {
    if bs == [] then [] else AllBlockLines(bs[..|bs| - 1]) + BlockLines(bs[|bs| - 1])
  }

  /** The lines of the document. */
  function DocumentLines(bs: seq<Block>): (lines: seq<string>)
  {
    ["<scenario>"] + AllBlockLines(bs) + ["</scenario>"]
  }

  /** Every line followed by a newline. */
  function Join(lines: seq<string>): (s: string)
  {
    if lines == [] then "" else Join(lines[..|lines| - 1]) + lines[|lines| - 1] + "\n"
  }

  /** The text the generator writes. */
  function DocumentText(bs: seq<Block>): (s: string)
  {
    Join(DocumentLines(bs))
  }

  // ---------------------------------------------------------------------------
  // Line structure

  /** The number of directives of a block. */
  function DirectiveCount(b: Block): (n: nat)
  {
    |b.repairedLinks| + |b.failedLinks| + |b.repairedNodes| + |b.failedNodes|
  }

  /** Three lines per block plus one per directive, over a sequence of blocks. */
  function BlockLineCount(bs: seq<Block>): (n: nat)
  {
    if bs == [] then 0 else BlockLineCount(bs[..|bs| - 1]) + 3 + DirectiveCount(bs[|bs| - 1])
  }

  /**
    A block has its comment and its `<at>` line first, `</at>` last, and exactly
    one line per directive in between.
  */
  lemma BlockLayout(b: Block)
    ensures |BlockLines(b)| == 3 + DirectiveCount(b)
    ensures BlockLines(b)[0] == CommentLine(b) && BlockLines(b)[1] == AtLine(b)
    ensures BlockLines(b)[|BlockLines(b)| - 1] == "\t</at>"
  {
  }

  /**
    The document is `<scenario>`, the lines of each block in order, and
    `</scenario>`; it has three lines per block plus one per directive, plus two.
  */
  lemma {:induction false} DocumentLayout(bs: seq<Block>)
    ensures |DocumentLines(bs)| == 2 + BlockLineCount(bs)
    ensures DocumentLines(bs)[0] == "<scenario>"
    ensures DocumentLines(bs)[|DocumentLines(bs)| - 1] == "</scenario>"
  {
    AllBlockLinesCount(bs);
  }

  lemma {:induction false} AllBlockLinesCount(bs: seq<Block>)
    ensures |AllBlockLines(bs)| == BlockLineCount(bs)
  {
    if bs != [] {
      AllBlockLinesCount(bs[..|bs| - 1]);
      BlockLayout(bs[|bs| - 1]);
    }
  }

  /** The written text consists of the lines, each ending in a newline. */
  lemma {:induction false} JoinAppend(a: seq<string>, b: seq<string>)
    ensures Join(a + b) == Join(a) + Join(b)
    decreases |b|
  {
    if b == [] {
      assert a + b == a;
    } else {
      assert (a + b)[..|a + b| - 1] == a + b[..|b| - 1];
      JoinAppend(a, b[..|b| - 1]);
    }
  }

  /** The text starts with `<scenario>` and ends with `</scenario>`, each on its own line. */
  lemma DocumentTextFrame(bs: seq<Block>)
    ensures DocumentText(bs) == "<scenario>\n" + Join(AllBlockLines(bs)) + "</scenario>\n"
  {
    JoinAppend(["<scenario>"], AllBlockLines(bs));
    JoinAppend(["<scenario>"] + AllBlockLines(bs), ["</scenario>"]);
    assert Join(["<scenario>"]) == "<scenario>\n" by {
      assert ["<scenario>"][..0] == [];
    }
    assert Join(["</scenario>"]) == "</scenario>\n" by {
      assert ["</scenario>"][..0] == [];
    }
  }

  /**
    The generator's text accumulation: `<scenario>`, then each phase's block
    appended in turn, then `</scenario>`.
  */
  method WriteScenario(bs: seq<Block>) returns (text: string)
    ensures text == DocumentText(bs)
  {
    var body := WriteBlocks(bs);
    text := Join(["<scenario>"]) + body + Join(["</scenario>"]);
    JoinDocument(bs);
  }

  /** The text of the blocks, appended block by block. */
  method WriteBlocks(bs: seq<Block>) returns (text: string)
    ensures text == Join(AllBlockLines(bs))
  {
    text := "";
    var k := 0;
    while k < |bs|
      invariant 0 <= k <= |bs|
      invariant text == Join(AllBlockLines(bs[..k]))
    {
      JoinBlocksSnoc(bs, k);
      text := text + Join(BlockLines(bs[k]));
      k := k + 1;
    }
    assert bs[..k] == bs;
  }

  lemma JoinDocument(bs: seq<Block>)
    ensures DocumentText(bs) == Join(["<scenario>"]) + Join(AllBlockLines(bs)) + Join(["</scenario>"])
  {
    JoinAppend(["<scenario>"], AllBlockLines(bs));
    JoinAppend(["<scenario>"] + AllBlockLines(bs), ["</scenario>"]);
  }

  lemma JoinBlocksSnoc(bs: seq<Block>, k: nat)
    requires k < |bs|
    ensures Join(AllBlockLines(bs[..k + 1])) == Join(AllBlockLines(bs[..k])) + Join(BlockLines(bs[k]))
  {
    assert bs[..k + 1][..k] == bs[..k];
    JoinAppend(AllBlockLines(bs[..k]), BlockLines(bs[k]));
  }
}
