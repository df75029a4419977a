/** `splitMessage`, `sendDiscordMessage`, `sendReply` and `sendFollowUp`: long replies
    cut into line-aligned chunks, code fences kept on every chunk, and the first chunk
    sent with the method the interaction's state calls for. */
module Messages {
  import opened Text

  /** Discord's limit on the length of a message, the default `limit`. */
  const MessageLimit: int := 2000

  const Fence: string := "```"

  /** `text.startsWith('```') && text.endsWith('```')`. */
  predicate IsFenced(t: string) {
    Fence <= t && |t| >= 3 && t[|t| - 3..] == Fence
  }

  /** `text.slice(3, -3).trim()`. */
  function Unfence(t: string): string {
    Trim(if |t| >= 6 then t[3..|t| - 3] else "")
  }

  /** The buffer a group of lines builds: every line followed by a newline. */
  function Block(g: seq<string>): (b: string)
    ensures g == [] <==> b == []
    ensures g != [] ==> b[|b| - 1] == '\n'
  {
    if g == [] then "" else Block(g[..|g| - 1]) + g[|g| - 1] + "\n"
  }

  lemma BlockSnoc(g: seq<string>, line: string)
    ensures Block(g + [line]) == Block(g) + line + "\n"
  {
    assert (g + [line])[..|g|] == g;
  }

  /** The loop state of `splitMessage`: the groups already pushed and the lines in `buf`. */
  datatype Packing = Packing(closed: seq<seq<string>>, open: seq<string>)

  /** The greedy loop of `splitMessage`: a line that would take the buffer past `limit`
      first closes the buffer. With `keepEmpty` an empty buffer is closed too, as the
      loop does; without it an empty buffer is never closed. */
  function Pack(lines: seq<string>, limit: int, keepEmpty: bool): Packing {
    if lines == [] then Packing([], [])
    else Step(Pack(lines[..|lines| - 1], limit, keepEmpty), lines[|lines| - 1], limit, keepEmpty)
  }

  /** One pass of the loop body. */
  function Step(p: Packing, line: string, limit: int, keepEmpty: bool): Packing {
    if |Block(p.open)| + |line| + 1 > limit && (keepEmpty || p.open != [])
    then Packing(p.closed + [p.open], [line])
    else Packing(p.closed, p.open + [line])
  }

  /** The groups pushed once the loop is over: `if (buf) chunks.push(...)`. */
  function Groups(p: Packing): seq<seq<string>> {
    if p.open == [] then p.closed else p.closed + [p.open]
  }

  function Concat(gs: seq<seq<string>>): seq<string> {
    if gs == [] then [] else Concat(gs[..|gs| - 1]) + gs[|gs| - 1]
  }

  /** `chunks.push(buf.trimEnd())` for every group. */
  function Render(gs: seq<seq<string>>): seq<string> {
    seq(|gs|, i requires 0 <= i < |gs| => TrimEnd(Block(gs[i])))
  }

  /** `'```\n' + c + '\n```'`. */
  function FenceChunk(c: string): string {
    "```\n" + c + "\n```"
  }

  /** `wrap ? chunks.map(...) : chunks`. */
  function Rewrap(chunks: seq<string>, wrap: bool): seq<string> {
    if wrap then seq(|chunks|, i requires 0 <= i < |chunks| => FenceChunk(chunks[i])) else chunks
  }

  /** How a long text is laid out: whether it was fenced, the text between the fences
      (or the whole text), the limit the loop works with and the groups of lines. */
  datatype Layout = Layout(wrap: bool, body: string, limit: int, groups: seq<seq<string>>)

  /** The layout of a text longer than `limit`: a fenced text loses its fences and
      `reserve` characters of the limit; `keepEmpty` is passed to the loop. */
  function LayoutOf(text: string, limit: int, reserve: int, keepEmpty: bool): Layout {
    var wrap := IsFenced(text);
    var body := if wrap then Unfence(text) else text;
    var lim := if wrap then limit - reserve else limit;
    Layout(wrap, body, lim, Groups(Pack(Split(body, '\n'), lim, keepEmpty)))
  }

  /** `splitMessage(text, limit)` as written: six characters reserved for the fences,
      and the buffer closed even when it is empty. */
  function SplitAsWritten(text: string, limit: int): seq<string> {
    if |text| <= limit then [text]
    else
      var lay := LayoutOf(text, limit, 6, true);
      Rewrap(Render(lay.groups), lay.wrap)
  }

  /** `splitMessage` with the two corrections: eight characters reserved for the fences
      `'```\n'` and `'\n```'` it adds, and an empty buffer never pushed as a chunk. */
  function SplitMessageCorrected(text: string, limit: int): seq<string> {
    if |text| <= limit then [text]
    else
      var lay := LayoutOf(text, limit, 8, false);
      Rewrap(Render(lay.groups), lay.wrap)
  }

  /** `splitMessage(text, limit)`, as written. */
  method SplitMessage(text: string, limit: int) returns (chunks: seq<string>)
    ensures chunks == SplitAsWritten(text, limit)
  {
    if |text| <= limit {
      return [text];
    }
    ghost var lay := LayoutOf(text, limit, 6, true);
    var body, lim, wrap := text, limit, false;
    if IsFenced(text) {
      wrap := true;
      body := Unfence(text);
      lim := limit - 6;
    }
    assert wrap == lay.wrap && body == lay.body && lim == lay.limit;
    chunks := PackLines(Split(body, '\n'), lim);
    assert chunks == Render(lay.groups);
    if wrap {
      chunks := seq(|chunks|, k requires 0 <= k < |chunks| => FenceChunk(chunks[k]));
    }
    assert chunks == Rewrap(Render(lay.groups), lay.wrap);
  }

  /** The loop of `splitMessage` over the lines, with the buffer `buf`. */
  method PackLines(lines: seq<string>, lim: int) returns (chunks: seq<string>)
    ensures chunks == Render(Groups(Pack(lines, lim, true)))
  {
    chunks := [];
    var buf := "";
    for i := 0 to |lines|
      invariant chunks == Render(Pack(lines[..i], lim, true).closed)
      invariant buf == Block(Pack(lines[..i], lim, true).open)
    {
      var line := lines[i];
      ghost var p := Pack(lines[..i], lim, true);
      assert lines[..i + 1] == lines[..i] + [line];
      PackSnoc(lines[..i], line, lim, true);
      if |buf + line + "\n"| > lim {
        RenderSnoc(p.closed, p.open);
        chunks := chunks + [TrimEnd(buf)];
        buf := "";
        BlockSnoc([], line);
      } else {
        BlockSnoc(p.open, line);
      }
      buf := buf + line + "\n";
    }
    assert lines[..|lines|] == lines;
    ghost var p := Pack(lines, lim, true);
    if buf != "" {
      RenderSnoc(p.closed, p.open);
      chunks := chunks + [TrimEnd(buf)];
    }
  }

  lemma RenderSnoc(gs: seq<seq<string>>, g: seq<string>)
    ensures Render(gs + [g]) == Render(gs) + [TrimEnd(Block(g))]
  {
  }

  // ---------------------------------------------------------------------------
  // Properties of the greedy loop

  /** One more line: the step of the loop. */
  lemma PackSnoc(init: seq<string>, line: string, limit: int, keepEmpty: bool)
    ensures Pack(init + [line], limit, keepEmpty) == Step(Pack(init, limit, keepEmpty), line, limit, keepEmpty)
  {
    assert (init + [line])[..|init|] == init;
  }

  lemma ConcatSnoc(gs: seq<seq<string>>, g: seq<string>)
    ensures Concat(gs + [g]) == Concat(gs) + g
  {
    assert (gs + [g])[..|gs|] == gs;
  }

  /** The groups, read in order, are the lines. */
  lemma {:induction false} PackCover(lines: seq<string>, limit: int, keepEmpty: bool)
    ensures Concat(Groups(Pack(lines, limit, keepEmpty))) == lines
  {
    var p := Pack(lines, limit, keepEmpty);
    PackCoverStep(lines, limit, keepEmpty);
    if p.open != [] {
      ConcatSnoc(p.closed, p.open);
    }
  }

  lemma {:induction false} PackCoverStep(lines: seq<string>, limit: int, keepEmpty: bool)
    ensures Concat(Pack(lines, limit, keepEmpty).closed) + Pack(lines, limit, keepEmpty).open == lines
  {
    if lines != [] {
      var init, line := lines[..|lines| - 1], lines[|lines| - 1];
      assert lines == init + [line];
      var q := Pack(init, limit, keepEmpty);
      PackCoverStep(init, limit, keepEmpty);
      PackSnoc(init, line, limit, keepEmpty);
      ConcatSnoc(q.closed, q.open);
    }
  }

  /** Every group fits the limit, unless it holds at most one line. */
  lemma {:induction false} PackFits(lines: seq<string>, limit: int, keepEmpty: bool)
    ensures var gs := Groups(Pack(lines, limit, keepEmpty));
      forall i :: 0 <= i < |gs| ==> |Block(gs[i])| <= limit || |gs[i]| <= 1
  {
    PackFitsStep(lines, limit, keepEmpty);
  }

  predicate AllFit(gs: seq<seq<string>>, limit: int) {
    forall i :: 0 <= i < |gs| ==> |Block(gs[i])| <= limit || |gs[i]| <= 1
  }

  lemma {:induction false} PackFitsStep(lines: seq<string>, limit: int, keepEmpty: bool)
    ensures var p := Pack(lines, limit, keepEmpty);
      AllFit(p.closed + [p.open], limit) && AllFit(Groups(p), limit)
  {
    var p := Pack(lines, limit, keepEmpty);
    if lines != [] {
      var init, line := lines[..|lines| - 1], lines[|lines| - 1];
      assert lines == init + [line];
      var q := Pack(init, limit, keepEmpty);
      PackFitsStep(init, limit, keepEmpty);
      PackSnoc(init, line, limit, keepEmpty);
      BlockSnoc(q.open, line);
      assert |q.open + [line]| == |q.open| + 1;
      assert AllFit(q.closed + [q.open], limit);
    }
    assert Groups(p) == p.closed || Groups(p) == p.closed + [p.open];
  }

  predicate Greedy(gs: seq<seq<string>>, limit: int) {
    forall i :: 0 < i < |gs| ==> gs[i] != [] && |Block(gs[i - 1])| + |gs[i][0]| + 1 > limit
  }

  /** The loop closes a group only when the next line would not fit: a group and the
      first line of the group after it together exceed the limit. */
  lemma {:induction false} PackGreedy(lines: seq<string>, limit: int, keepEmpty: bool)
    ensures var gs := Groups(Pack(lines, limit, keepEmpty));
      forall i :: 0 < i < |gs| ==> gs[i] != [] && |Block(gs[i - 1])| + |gs[i][0]| + 1 > limit
  {
    var p := Pack(lines, limit, keepEmpty);
    PackGreedyStep(lines, limit, keepEmpty);
    if p.open != [] {
      GreedySnoc(p.closed, p.open, limit);
    }
  }

  lemma GreedySnoc(gs: seq<seq<string>>, g: seq<string>, limit: int)
    requires Greedy(gs, limit)
    requires gs != [] ==> g != [] && |Block(gs[|gs| - 1])| + |g[0]| + 1 > limit
    ensures Greedy(gs + [g], limit)
  {
    var hs := gs + [g];
    forall i | 0 < i < |hs|
      ensures hs[i] != [] && |Block(hs[i - 1])| + |hs[i][0]| + 1 > limit
    {
      if i < |gs| {
        assert hs[i] == gs[i] && hs[i - 1] == gs[i - 1];
      } else {
        assert hs[i] == g && hs[i - 1] == gs[|gs| - 1];
      }
    }
  }

  /** What the loop keeps about the groups already closed and the buffer. */
  predicate GreedyState(p: Packing, limit: int) {
    Greedy(p.closed, limit)
    && (p.closed != [] ==> p.open != [] && |Block(p.closed[|p.closed| - 1])| + |p.open[0]| + 1 > limit)
  }

  lemma GreedyStep(p: Packing, line: string, limit: int, keepEmpty: bool)
    requires GreedyState(p, limit)
    ensures GreedyState(Step(p, line, limit, keepEmpty), limit)
  {
    if |Block(p.open)| + |line| + 1 > limit && (keepEmpty || p.open != []) {
      GreedySnoc(p.closed, p.open, limit);
    } else {
      assert p.open != [] ==> (p.open + [line])[0] == p.open[0];
    }
  }

  lemma {:induction false} PackGreedyStep(lines: seq<string>, limit: int, keepEmpty: bool)
    ensures GreedyState(Pack(lines, limit, keepEmpty), limit)
  {
    if lines != [] {
      var init, line := lines[..|lines| - 1], lines[|lines| - 1];
      PackGreedyStep(init, limit, keepEmpty);
      GreedyStep(Pack(init, limit, keepEmpty), line, limit, keepEmpty);
    }
  }

  predicate NoEmptyGroup(gs: seq<seq<string>>) {
    forall i :: 0 <= i < |gs| ==> gs[i] != []
  }

  /** Without `keepEmpty`, no group is empty. */
  lemma {:induction false} PackNoEmptyGroup(lines: seq<string>, limit: int)
    ensures NoEmptyGroup(Groups(Pack(lines, limit, false)))
    ensures NoEmptyGroup(Pack(lines, limit, false).closed)
  {
    if lines != [] {
      var init, line := lines[..|lines| - 1], lines[|lines| - 1];
      assert lines == init + [line];
      PackNoEmptyGroup(init, limit);
      PackSnoc(init, line, limit, false);
    }
  }

  lemma {:induction false} ConcatCountsGroups(gs: seq<seq<string>>)
    requires NoEmptyGroup(gs)
    ensures |gs| <= |Concat(gs)|
  {
    if gs != [] {
      ConcatCountsGroups(gs[..|gs| - 1]);
    }
  }

  /** As written, a first line that overflows the empty buffer closes that buffer, and
      the first group is empty. */
  lemma {:induction false} PackEmptyFirstGroup(lines: seq<string>, limit: int)
    requires lines != [] && |lines[0]| + 1 > limit
    ensures Pack(lines, limit, true).closed != [] && Pack(lines, limit, true).closed[0] == []
  {
    var init, line := lines[..|lines| - 1], lines[|lines| - 1];
    assert lines == init + [line];
    PackSnoc(init, line, limit, true);
    if |lines| > 1 {
      assert init[0] == lines[0];
      PackEmptyFirstGroup(init, limit);
    } else {
      assert init == [];
    }
  }

  // ---------------------------------------------------------------------------
  // Properties of the split

  /** A text within the limit is sent as it is. */
  lemma SplitShortText(text: string, limit: int)
    requires |text| <= limit
    ensures SplitAsWritten(text, limit) == [text] && SplitMessageCorrected(text, limit) == [text]
  {
  }

  /** A long text comes back as one chunk per group of lines; read in order the groups
      are the lines of the text (between the fences when it was fenced), and every chunk
      of a fenced text is fenced again. */
  lemma SplitLayout(text: string, limit: int, reserve: int, keepEmpty: bool)
    requires |text| > limit
    ensures var lay := LayoutOf(text, limit, reserve, keepEmpty);
      var chunks := Rewrap(Render(lay.groups), lay.wrap);
      && Join(Concat(lay.groups), "\n") == lay.body
      && lay.body == (if IsFenced(text) then Unfence(text) else text)
      && |chunks| == |lay.groups|
      && forall i :: 0 <= i < |chunks| ==>
           chunks[i] == (if lay.wrap then FenceChunk(TrimEnd(Block(lay.groups[i]))) else TrimEnd(Block(lay.groups[i])))
  {
    var lay := LayoutOf(text, limit, reserve, keepEmpty);
    PackCover(Split(lay.body, '\n'), lay.limit, keepEmpty);
    JoinSplit(lay.body, '\n');
  }

  lemma TrimmedBlockShorter(g: seq<string>)
    requires g != []
    ensures |TrimEnd(Block(g))| < |Block(g)|
  {
    var b := Block(g);
    assert IsWhitespace(b[|b| - 1]);
  }

  /** The chunk of one group fits once the fences are counted, unless the group is a
      single line too long on its own. */
  lemma ChunkFits(g: seq<string>, wrap: bool, limit: int, lim: int)
    requires g != [] && (|Block(g)| <= lim || |g| <= 1)
    requires lim == if wrap then limit - 8 else limit
    ensures var c := TrimEnd(Block(g));
      |(if wrap then FenceChunk(c) else c)| <= limit || (|g| == 1 && |Block(g)| > lim)
  {
    TrimmedBlockShorter(g);
  }

  /** Corrected: every chunk is within the limit, fences included, unless it is a single
      line that is too long on its own. */
  lemma {:induction false} SplitCorrectedFits(text: string, limit: int)
    requires |text| > limit
    ensures var lay := LayoutOf(text, limit, 8, false);
      var chunks := SplitMessageCorrected(text, limit);
      |chunks| == |lay.groups|
      && forall i :: 0 <= i < |chunks| ==>
           |chunks[i]| <= limit || (|lay.groups[i]| == 1 && |Block(lay.groups[i])| > lay.limit)
  {
    var lay := LayoutOf(text, limit, 8, false);
    var gs := lay.groups;
    var chunks := SplitMessageCorrected(text, limit);
    assert chunks == Rewrap(Render(gs), lay.wrap);
    var lines := Split(lay.body, '\n');
    assert gs == Groups(Pack(lines, lay.limit, false));
    PackFits(lines, lay.limit, false);
    PackNoEmptyGroup(lines, lay.limit);
    forall i | 0 <= i < |chunks|
      ensures |chunks[i]| <= limit || (|gs[i]| == 1 && |Block(gs[i])| > lay.limit)
    {
      ChunkFits(gs[i], lay.wrap, limit, lay.limit);
    }
  }

  /** Corrected: a long text gives at least one chunk and never more chunks than lines. */
  lemma {:induction false} SplitCorrectedCount(text: string, limit: int)
    requires |text| > limit
    ensures var lay := LayoutOf(text, limit, 8, false);
      1 <= |SplitMessageCorrected(text, limit)| <= |Split(lay.body, '\n')|
  {
    var lay := LayoutOf(text, limit, 8, false);
    var lines := Split(lay.body, '\n');
    assert lay.groups == Groups(Pack(lines, lay.limit, false));
    PackCover(lines, lay.limit, false);
    PackNoEmptyGroup(lines, lay.limit);
    ConcatCountsGroups(lay.groups);
    assert |Concat(lay.groups)| >= 1;
    assert |SplitMessageCorrected(text, limit)| == |lay.groups|;
  }

  /** As written, a long text that is one line with no fence is sent as an empty chunk
      followed by the (trimmed) text. */
  lemma {:induction false} SplitEmptyFirstChunk(text: string, limit: int)
    requires |text| > limit && !IsFenced(text) && '\n' !in text
    ensures SplitAsWritten(text, limit) == ["", TrimEnd(text)]
  {
    SplitNoSep(text);
    var lines := Split(text, '\n');
    assert lines == [text] && lines[..0] == [];
    BlockSnoc([], text);
    var b := Block([text]);
    assert b == text + "\n";
    assert TrimEnd(b) == TrimEnd(text) by {
      assert b[..|b| - 1] == text;
    }
    assert Pack(lines, limit, true) == Packing([[]], [text]);
  }

  /** A line of `limit - 7` characters after the opening fence of a text of `limit + 1`
      characters: the chunk it gets, fences included, is one character over the limit. */
  function OverflowingText(limit: int): string
    requires limit >= 8
  {
    Fence + seq(limit - 7, _ => 'a') + "\nb" + Fence
  }

  lemma TrimKeeps(s: string)
    requires s != [] && !IsWhitespace(s[0]) && !IsWhitespace(s[|s| - 1])
    ensures Trim(s) == s
  {
    assert TrimEnd(s) == s;
  }

  lemma NoNewlineInRun(n: nat)
    ensures '\n' !in seq(n, _ => 'a')
  {
    var a := seq(n, _ => 'a');
    forall i | 0 <= i < |a| ensures a[i] != '\n' { }
  }

  /** The text between the fences of `OverflowingText(limit)` is its two lines. */
  lemma OverflowingBody(limit: int)
    requires limit >= 8
    ensures IsFenced(OverflowingText(limit)) && |OverflowingText(limit)| == limit + 1
    ensures Split(Unfence(OverflowingText(limit)), '\n') == [seq(limit - 7, _ => 'a'), "b"]
  {
    var a := seq(limit - 7, _ => 'a');
    var text := OverflowingText(limit);
    var inner := a + "\n" + "b";
    assert text == Fence + inner + Fence;
    assert text[..3] == Fence && text[|text| - 3..] == Fence;
    assert text[3..|text| - 3] == inner;
    assert inner[0] == 'a' && inner[|inner| - 1] == 'b';
    TrimKeeps(inner);
    NoNewlineInRun(limit - 7);
    SplitOfLine(a, "b");
  }

  /** The loop over those lines with six characters reserved: the first line fills
      the buffer to the loop's limit exactly and the second closes it. */
  lemma OverflowingPack(a: string, limit: int)
    requires |a| == limit - 7
    ensures Pack([a, "b"], limit - 6, true) == Packing([[a]], ["b"])
    ensures |Block([a])| == limit - 6
  {
    BlockSnoc([], a);
    assert [a] == [] + [a];
    PackSnoc([], a, limit - 6, true);
    assert [a, "b"] == [a] + ["b"];
    PackSnoc([a], "b", limit - 6, true);
  }

  /** As written, six reserved characters do not cover the eight the fences add: the
      first line of `OverflowingText(limit)` fits the loop's limit, yet its chunk has
      `limit + 1` characters. */
  lemma {:induction false} SplitFenceOverflow(limit: int)
    requires limit >= 8
    ensures var text := OverflowingText(limit);
      var lay := LayoutOf(text, limit, 6, true);
      var chunks := SplitAsWritten(text, limit);
      |text| == limit + 1 && lay.wrap
      && |lay.groups| == 2 && |lay.groups[0]| == 1 && |Block(lay.groups[0])| <= lay.limit
      && |chunks| == 2 && |chunks[0]| == limit + 1
  {
    var a := seq(limit - 7, _ => 'a');
    var text := OverflowingText(limit);
    OverflowingLayout(limit);
    OverflowingBody(limit);
    OverflowingPack(a, limit);
    var gs := [[a], ["b"]];
    var chunks := SplitAsWritten(text, limit);
    assert chunks == Rewrap(Render(gs), true);
    assert chunks[0] == FenceChunk(TrimEnd(Block([a])));
    TrimmedRun(a);
  }

  lemma OverflowingLayout(limit: int)
    requires limit >= 8
    ensures var text := OverflowingText(limit);
      LayoutOf(text, limit, 6, true) == Layout(true, Unfence(text), limit - 6, [[seq(limit - 7, _ => 'a')], ["b"]])
  {
    var a := seq(limit - 7, _ => 'a');
    var text := OverflowingText(limit);
    OverflowingBody(limit);
    var body := Unfence(text);
    var lines := Split(body, '\n');
    assert lines == [a, "b"];
    OverflowingPack(a, limit);
    var p := Pack(lines, limit - 6, true);
    assert p == Packing([[a]], ["b"]);
    assert Groups(p) == [[a], ["b"]];
    assert LayoutOf(text, limit, 6, true) == Layout(true, body, limit - 6, Groups(p));
  }

  lemma TrimmedRun(a: string)
    requires a != [] && a[|a| - 1] == 'a'
    ensures TrimEnd(Block([a])) == a
  {
    var b := Block([a]);
    BlockSnoc([], a);
    assert [a] == [] + [a];
    assert b == a + "\n";
    assert b[..|b| - 1] == a;
    assert IsWhitespace(b[|b| - 1]) && !IsWhitespace(a[|a| - 1]);
    assert TrimEnd(b) == TrimEnd(a);
  }

  /** `(a + "\n" + b).split('\n')` for pieces without a newline. */
  lemma {:induction false} SplitOfLine(a: string, b: string)
    requires '\n' !in a && '\n' !in b && b != []
    ensures Split(a + "\n" + b, '\n') == [a, b]
  {
    if a == [] {
      assert ("" + "\n" + b)[1..] == b;
      SplitNoSep(b);
    } else {
      assert (a + "\n" + b)[1..] == a[1..] + "\n" + b;
      SplitOfLine(a[1..], b);
      assert [a[0]] + a[1..] == a;
    }
  }

  lemma {:induction false} SplitNoSep(s: string)
    requires '\n' !in s
    ensures Split(s, '\n') == [s]
  {
    if s != [] {
      assert '\n' !in s[1..];
      SplitNoSep(s[1..]);
      assert [s[0]] + s[1..] == s;
    }
  }

  // ---------------------------------------------------------------------------
  // Sending

  /** The interaction method a reply goes out with. */
  datatype ReplyMethod = Reply | EditReply | FollowUp

  /** `sendReply`'s choice: edit the deferred reply if nothing was sent yet, follow up
      once something was, and reply otherwise. */
  function ChooseMethod(deferred: bool, replied: bool): (m: ReplyMethod)
    ensures m == EditReply <==> deferred && !replied
    ensures m == FollowUp <==> replied
    ensures m == Reply <==> !deferred && !replied
  {
    if deferred && !replied then EditReply else if replied then FollowUp else Reply
  }

  /** What is sent: text, or a payload that is not a string (passed through whole). */
  datatype Content = Text(s: string) | Payload

  datatype Send = Send(via: ReplyMethod, content: Content)

  /** Either split gives at least one chunk: a long text has at least one line, and
      every line is in some group. */
  lemma SplitNonEmpty(text: string, limit: int)
    ensures |SplitAsWritten(text, limit)| >= 1
    ensures |SplitMessageCorrected(text, limit)| >= 1
  {
    if |text| > limit {
      var written := LayoutOf(text, limit, 6, true);
      var corrected := LayoutOf(text, limit, 8, false);
      SplitLayout(text, limit, 6, true);
      SplitLayout(text, limit, 8, false);
      PackCover(Split(written.body, '\n'), written.limit, true);
      PackCover(Split(corrected.body, '\n'), corrected.limit, false);
    }
  }

  /** `sendDiscordMessage(interaction, method, content)`: a payload goes out whole with
      `method`; a text is split as written, its first part sent with `method` and every
      other part as a follow-up, in order. */
  method SendDiscordMessage(m: ReplyMethod, content: Content) returns (sends: seq<Send>)
    ensures content.Payload? ==> sends == [Send(m, content)]
    ensures content.Text? ==>
      var parts := SplitAsWritten(content.s, MessageLimit);
      |sends| == |parts| >= 1
      && (forall i :: 0 <= i < |parts| ==> sends[i].content == Text(parts[i]))
      && sends[0].via == m
      && (forall i :: 1 <= i < |sends| ==> sends[i].via == FollowUp)
  {
    if content.Payload? {
      return [Send(m, content)];
    }
    var parts := SplitAsWritten(content.s, MessageLimit);
    SplitNonEmpty(content.s, MessageLimit);
    sends := SendParts(m, parts);
  }

  /** The same sender over the corrected split: every text part it sends is within the
      limit unless it is a single line that cannot fit on its own. */
  method SendDiscordMessageCorrected(m: ReplyMethod, content: Content) returns (sends: seq<Send>)
    ensures content.Payload? ==> sends == [Send(m, content)]
    ensures content.Text? ==>
      var parts := SplitMessageCorrected(content.s, MessageLimit);
      |sends| == |parts| >= 1
      && (forall i :: 0 <= i < |parts| ==> sends[i].content == Text(parts[i]))
      && sends[0].via == m
      && (forall i :: 1 <= i < |sends| ==> sends[i].via == FollowUp)
    ensures content.Text? && |content.s| > MessageLimit ==>
      var lay := LayoutOf(content.s, MessageLimit, 8, false);
      forall i :: 0 <= i < |sends| ==>
        |sends[i].content.s| <= MessageLimit || (|lay.groups[i]| == 1 && |Block(lay.groups[i])| > lay.limit)
  {
    if content.Payload? {
      return [Send(m, content)];
    }
    var parts := SplitMessageCorrected(content.s, MessageLimit);
    SplitNonEmpty(content.s, MessageLimit);
    if |content.s| > MessageLimit {
      SplitCorrectedFits(content.s, MessageLimit);
    }
    sends := SendParts(m, parts);
  }

  /** The loop of `sendDiscordMessage` over the parts of a text. */
  method SendParts(m: ReplyMethod, parts: seq<string>) returns (sends: seq<Send>)
    ensures |sends| == |parts|
    ensures forall i :: 0 <= i < |parts| ==> sends[i].content == Text(parts[i])
    ensures forall i :: 0 <= i < |parts| ==> sends[i].via == (if i == 0 then m else FollowUp)
  {
    sends := [];
    for i := 0 to |parts|
      invariant |sends| == i
      invariant forall j :: 0 <= j < i ==> sends[j] == Send(if j == 0 then m else FollowUp, Text(parts[j]))
    {
      var how := if i == 0 then m else FollowUp;
      sends := sends + [Send(how, Text(parts[i]))];
    }
  }

  /** `sendReply`: the message goes out as `sendDiscordMessage` sends it, its first
      part with the method the interaction's state calls for. */
  method SendReply(deferred: bool, replied: bool, content: Content) returns (sends: seq<Send>)
    ensures |sends| >= 1
    ensures sends[0].via == (if deferred && !replied then EditReply else if replied then FollowUp else Reply)
    ensures forall i :: 1 <= i < |sends| ==> sends[i].via == FollowUp
    ensures content.Payload? ==> |sends| == 1 && sends[0].content == content
    ensures content.Text? ==>
      var parts := SplitAsWritten(content.s, MessageLimit);
      |sends| == |parts| && forall i :: 0 <= i < |parts| ==> sends[i].content == Text(parts[i])
  {
    sends := SendDiscordMessage(ChooseMethod(deferred, replied), content);
  }

  /** `sendFollowUp`: the message goes out as `sendDiscordMessage` sends it, every part
      as a follow-up. */
  method SendFollowUp(content: Content) returns (sends: seq<Send>)
    ensures |sends| >= 1
    ensures forall i :: 0 <= i < |sends| ==> sends[i].via == FollowUp
    ensures content.Payload? ==> |sends| == 1 && sends[0].content == content
    ensures content.Text? ==>
      var parts := SplitAsWritten(content.s, MessageLimit);
      |sends| == |parts| && forall i :: 0 <= i < |parts| ==> sends[i].content == Text(parts[i])
  {
    sends := SendDiscordMessage(FollowUp, content);
  }
}
