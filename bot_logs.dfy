/**
 * `print_logs` of bot.py: it gathers a number of log lines from the log
 * files and sends them in code-block messages kept under Discord's 2000
 * character limit. The log files are given in ascending modification
 * time, each as its `readlines()` (every line with its line ending).
 */
module BotLogs {
  import opened Text

  /** A message is flushed once adding the next line would reach this length. */
  const ChunkLimit: nat := 1990

  /** `"".join(lines)`. */
  function Concat(xs: seq<string>): string
  {
    if xs == [] then "" else Concat(xs[..|xs| - 1]) + xs[|xs| - 1]
  }

  lemma {:induction false} ConcatAppend(a: seq<string>, b: seq<string>)
    ensures Concat(a + b) == Concat(a) + Concat(b)
  {
    if b == [] {
      assert a + b == a;
    } else {
      assert (a + b)[..|a + b| - 1] == a + b[..|b| - 1];
      ConcatAppend(a, b[..|b| - 1]);
    }
  }

  /** All lines of the files, in order. */
  function Flatten(files: seq<seq<string>>): seq<string>
  {
    if files == [] then [] else files[0] + Flatten(files[1..])
  }

  function TotalLines(files: seq<seq<string>>): nat
  {
    if files == [] then 0 else |files[0]| + TotalLines(files[1..])
  }

  /**
   * The lines the first loop takes with a budget of `n`: whole files while
   * they are shorter than what is left of the budget, then the last lines
   * of the file that exhausts it.
   */
  function Collected(files: seq<seq<string>>, n: int): seq<string>
  {
    if files == [] || n <= 0 then []
    else if |files[0]| < n then files[0] + Collected(files[1..], n - |files[0]|)
    else files[0][|files[0]| - n..]
  }

  function Min(a: int, b: int): int { if a < b then a else b }
  function Max(a: int, b: int): int { if a < b then b else a }

  /** At most `num_lines` lines are taken, and fewer only when the files hold fewer. */
  lemma {:induction false} CollectedLength(files: seq<seq<string>>, n: int)
    ensures |Collected(files, n)| == Min(Max(n, 0), TotalLines(files))
  {
    if files != [] && n > 0 && |files[0]| < n {
      CollectedLength(files[1..], n - |files[0]|);
    }
  }

  /** A budget covering every line takes every line, in file order. */
  lemma {:induction false} CollectedAll(files: seq<seq<string>>, n: int)
    requires n > TotalLines(files)
    ensures Collected(files, n) == Flatten(files)
  {
    if files != [] {
      CollectedAll(files[1..], n - |files[0]|);
    }
  }

  /**
   * The files are visited oldest first, so a budget the oldest file can
   * cover is spent on that file's last lines alone.
   */
  lemma CollectedOldest(files: seq<seq<string>>, n: int)
    requires files != [] && 0 < n <= |files[0]|
    ensures Collected(files, n) == files[0][|files[0]| - n..]
  {
  }

  /** The messages flushed so far and the one being filled. */
  datatype Chunks = Chunks(flushed: seq<string>, msg: string)

  /**
   * One iteration of the chunking loop as written: when the line would
   * bring the message to the limit, the message is flushed and the line
   * itself is dropped.
   */
  function ChunkStep(c: Chunks, l: string): Chunks
  {
    if |c.msg| + |l| >= ChunkLimit then Chunks(c.flushed + [c.msg], "")
    else Chunks(c.flushed, c.msg + l + "\n")
  }

  /** One iteration as intended: a non-empty message is flushed and the line starts the next one. */
  function ChunkStepFixed(c: Chunks, l: string): Chunks
  {
    if c.msg != "" && |c.msg| + |l| >= ChunkLimit then Chunks(c.flushed + [c.msg], l + "\n")
    else Chunks(c.flushed, c.msg + l + "\n")
  }

  function Chunked(lines: seq<string>): Chunks
  {
    if lines == [] then Chunks([], "") else ChunkStep(Chunked(lines[..|lines| - 1]), lines[|lines| - 1])
  }

  function ChunkedFixed(lines: seq<string>): Chunks
  {
    if lines == [] then Chunks([], "") else ChunkStepFixed(ChunkedFixed(lines[..|lines| - 1]), lines[|lines| - 1])
  }

  /** `"```\n{}\n```".format(body)`. */
  function Fence(body: string): string
  {
    "```\n" + body + "\n```"
  }

  function Fenced(bufs: seq<string>): (r: seq<string>)
    ensures |r| == |bufs|
    ensures forall k :: 0 <= k < |bufs| ==> r[k] == Fence(Strip(bufs[k]))
  {
    if bufs == [] then [] else Fenced(bufs[..|bufs| - 1]) + [Fence(Strip(bufs[|bufs| - 1]))]
  }

  /** What is sent: every flushed message, then the last one when it is not empty. */
  function Messages(c: Chunks): seq<string>
  {
    Fenced(c.flushed) + (if |c.msg| > 0 then [Fence(Strip(c.msg))] else [])
  }

  /** As written, no message body ever exceeds the limit. */
  lemma {:induction false} ChunkedBound(lines: seq<string>)
    ensures var c := Chunked(lines);
      |c.msg| <= ChunkLimit && forall k :: 0 <= k < |c.flushed| ==> |c.flushed[k]| <= ChunkLimit
  {
    if lines != [] {
      ChunkedBound(lines[..|lines| - 1]);
    }
  }

  /** Hence, as written, every message sent fits in Discord's 2000 characters. */
  lemma MessagesFit(lines: seq<string>)
    ensures forall m :: m in Messages(Chunked(lines)) ==> |m| < 2000
  {
    var c := Chunked(lines);
    ChunkedBound(lines);
    forall m | m in Messages(c)
      ensures |m| < 2000
    {
      var k :| 0 <= k < |Messages(c)| && Messages(c)[k] == m;
      if k < |c.flushed| {
        assert |Strip(c.flushed[k])| <= |c.flushed[k]|;
      } else {
        assert |Strip(c.msg)| <= |c.msg|;
      }
    }
  }

  /** A 1989-character line fills the message, and the line after it is lost. */
  lemma ChunkDropsLine(x: string, y: string)
    requires |x| == ChunkLimit - 1
    ensures Chunked([x, y]) == Chunks([x + "\n"], "")
    ensures ChunkedFixed([x, y]) == Chunks([x + "\n"], y + "\n")
  {
    assert [x, y][..1] == [x];
    assert [x][..0] == [];
    assert "" + x + "\n" == x + "\n";
    assert Chunked([x]) == Chunks([], x + "\n");
    assert ChunkedFixed([x]) == Chunks([], x + "\n");
  }

  /** Every line with its line break, in order. */
  function WithBreaks(lines: seq<string>): string
  {
    if lines == [] then "" else WithBreaks(lines[..|lines| - 1]) + lines[|lines| - 1] + "\n"
  }

  /** As intended, the messages hold every line, in order. */
  lemma {:induction false} ChunkedFixedKeepsLines(lines: seq<string>)
    ensures Concat(ChunkedFixed(lines).flushed) + ChunkedFixed(lines).msg == WithBreaks(lines)
  {
    if lines != [] {
      var init := lines[..|lines| - 1];
      var l := lines[|lines| - 1];
      ChunkedFixedKeepsLines(init);
      KeepsLinesStep(ChunkedFixed(init), l);
      assert ChunkedFixed(lines) == ChunkStepFixed(ChunkedFixed(init), l);
      assert WithBreaks(lines) == WithBreaks(init) + l + "\n";
    }
  }

  /** One intended step appends the line and its break to what the messages hold. */
  lemma KeepsLinesStep(c: Chunks, l: string)
    ensures Concat(ChunkStepFixed(c, l).flushed) + ChunkStepFixed(c, l).msg == Concat(c.flushed) + c.msg + l + "\n"
  {
    if c.msg != "" && |c.msg| + |l| >= ChunkLimit {
      ConcatAppend(c.flushed, [c.msg]);
      assert [c.msg][..0] == [];
      assert Concat([c.msg]) == c.msg;
    }
  }

  /** A message within the limit, or one line that is over it alone. */
  predicate Fits(m: string, lines: seq<string>)
  {
    |m| <= ChunkLimit || exists l :: l in lines && m == l + "\n"
  }

  lemma FitsLonger(m: string, init: seq<string>, lines: seq<string>)
    requires Fits(m, init) && forall x :: x in init ==> x in lines
    ensures Fits(m, lines)
  {
  }

  /** As intended, a message is over the limit only when it is a single line that is over it alone. */
  lemma {:induction false} ChunkedFixedBound(lines: seq<string>)
    ensures var c := ChunkedFixed(lines);
      && Fits(c.msg, lines)
      && forall k :: 0 <= k < |c.flushed| ==> c.flushed[k] != "" && Fits(c.flushed[k], lines)
  {
    if lines != [] {
      var init := lines[..|lines| - 1];
      var l := lines[|lines| - 1];
      ChunkedFixedBound(init);
      var c := ChunkedFixed(init);
      assert forall x :: x in init ==> x in lines;
      assert l in lines;
      FitsLonger(c.msg, init, lines);
      forall k | 0 <= k < |c.flushed|
        ensures Fits(c.flushed[k], lines)
      {
        FitsLonger(c.flushed[k], init, lines);
      }
    }
  }

  /** The first loop: the budgeted lines of the files, joined. */
  method CollectLogs(files: seq<seq<string>>, numLines: int) returns (logStr: string)
    ensures logStr == Concat(Collected(files, numLines))
  {
    logStr := "";
    var budget := numLines;
    var i := 0;
    ghost var taken: seq<string> := [];
    while i < |files|
      invariant i <= |files|
      invariant taken + Collected(files[i..], budget) == Collected(files, numLines)
      invariant logStr == Concat(taken)
      decreases |files| - i
    {
      if budget <= 0 {
        break;
      }
      var lines := files[i];
      var part, rest := TakeFromFile(lines, budget);
      CollectedStep(files, i, budget, taken, part, rest);
      ConcatAppend(taken, part);
      logStr := logStr + Concat(part);
      taken := taken + part;
      budget := rest;
      i := i + 1;
    }
    assert taken == Collected(files, numLines);
  }

  lemma CollectedStep(files: seq<seq<string>>, i: nat, budget: int, taken: seq<string>, part: seq<string>, rest: int)
    requires i < |files| && budget > 0
    requires |files[i]| < budget ==> part == files[i] && rest == budget - |files[i]|
    requires |files[i]| >= budget ==> part == files[i][|files[i]| - budget..] && rest == 0
    ensures taken + Collected(files[i..], budget) == (taken + part) + Collected(files[i + 1..], rest)
  {
    assert files[i..][1..] == files[i + 1..];
    assert Collected(files[i..], budget) == part + Collected(files[i + 1..], rest);
  }

  /** One iteration of the first loop: the lines taken from one file and the budget left. */
  method TakeFromFile(lines: seq<string>, budget: int) returns (part: seq<string>, rest: int)
    requires budget > 0
    ensures |lines| < budget ==> part == lines && rest == budget - |lines|
    ensures |lines| >= budget ==> part == lines[|lines| - budget..] && rest == 0
  {
    if |lines| < budget {
      part, rest := lines, budget - |lines|;
    } else {
      part, rest := lines[|lines| - budget..], 0;
    }
  }

  /** The second loop: the chunking of the lines, as written. */
  method SendChunks(lines: seq<string>) returns (sent: seq<string>)
    ensures sent == Messages(Chunked(lines))
  {
    sent := [];
    var msg := "";
    ghost var flushed: seq<string> := [];
    for i := 0 to |lines|
      invariant Chunked(lines[..i]) == Chunks(flushed, msg)
      invariant sent == Fenced(flushed)
    {
      assert lines[..i + 1][..i] == lines[..i];
      var l := lines[i];
      if |msg| + |l| >= ChunkLimit {
        sent := sent + [Fence(Strip(msg))];
        flushed := flushed + [msg];
        msg := "";
      } else {
        msg := msg + l + "\n";
      }
    }
    assert lines[..|lines|] == lines;
    if |msg| > 0 {
      sent := sent + [Fence(Strip(msg))];
    }
  }

  /** `print_logs(ctx, num_lines)` once the caller is an administrator: the messages it sends. */
  method PrintLogs(files: seq<seq<string>>, numLines: int) returns (sent: seq<string>)
    ensures sent == Messages(Chunked(SplitLines(Concat(Collected(files, numLines)))))
  {
    var logStr := CollectLogs(files, numLines);
    sent := SendChunks(SplitLines(logStr));
  }
}
