/** Line-level view of generated source text. The code generators glue snippets that
    each begin with a line break; this module relates such text to the list of lines a
    reader sees after splitting it at line breaks. */
module Lines {
  import opened Results
  import opened Strings

  /** A snippet that starts on a fresh line: a line break, then `lines` joined by line breaks. */
  function Block(lines: seq<string>): string {
    "\n" + Join(lines, "\n")
  }

  /** The lines of several blocks joined by line breaks: each block's lines, with one
      empty line between two blocks. */
  function BlockLines(groups: seq<seq<string>>): seq<string>
    decreases |groups|
  {
    if |groups| == 0 then []
    else if |groups| == 1 then groups[0]
    else groups[0] + [""] + BlockLines(groups[1..])
  }

  lemma {:induction false} JoinAppend(a: seq<string>, b: seq<string>, sep: string)
    requires |a| > 0 && |b| > 0
    ensures Join(a + b, sep) == Join(a, sep) + sep + Join(b, sep)
    decreases |a|
  {
    if |a| > 1 {
      JoinAppend(a[1..], b, sep);
      assert (a + b)[1..] == a[1..] + b;
    }
  }

  /** Concatenating two joined texts merges the last line of the first with the first
      line of the second. */
  lemma {:induction false} JoinGlue(a: seq<string>, b: seq<string>, sep: string)
    requires |a| > 0 && |b| > 0
    ensures Join(a, sep) + Join(b, sep) == Join(a[..|a| - 1] + [a[|a| - 1] + b[0]] + b[1..], sep)
    decreases |a|
  {
    var glued := a[..|a| - 1] + [a[|a| - 1] + b[0]] + b[1..];
    if |a| == 1 {
      assert glued == [a[0] + b[0]] + b[1..];
      if |b| > 1 {
        assert glued[1..] == b[1..];
      }
    } else {
      JoinGlue(a[1..], b, sep);
      assert glued[0] == a[0];
      assert glued[1..] == a[1..][..|a[1..]| - 1] + [a[1..][|a[1..]| - 1] + b[0]] + b[1..];
    }
  }

  lemma {:induction false} JoinBlocks(groups: seq<seq<string>>)
    requires |groups| > 0
    requires forall i :: 0 <= i < |groups| ==> |groups[i]| > 0
    ensures Join(seq(|groups|, i requires 0 <= i < |groups| => Block(groups[i])), "\n")
         == Join([""] + BlockLines(groups), "\n")
    decreases |groups|
  {
    var codes := seq(|groups|, i requires 0 <= i < |groups| => Block(groups[i]));
    assert Block(groups[0]) == Join([""] + groups[0], "\n");
    if |groups| > 1 {
      var rest := seq(|groups| - 1, i requires 0 <= i < |groups| - 1 => Block(groups[1..][i]));
      assert codes[1..] == rest;
      JoinBlocks(groups[1..]);
      JoinAppend([""] + groups[0], [""] + BlockLines(groups[1..]), "\n");
      assert [""] + BlockLines(groups) == ([""] + groups[0]) + ([""] + BlockLines(groups[1..]));
    }
  }

  /** Appending a joined text whose first line is empty starts a new line. */
  lemma GlueAtLineBreak(a: seq<string>, b: seq<string>)
    requires |a| > 0 && |b| > 0 && b[0] == ""
    ensures Join(a, "\n") + Join(b, "\n") == Join(a + b[1..], "\n")
  {
    JoinGlue(a, b, "\n");
    assert a[|a| - 1] + b[0] == a[|a| - 1];
    assert a[..|a| - 1] + [a[|a| - 1]] == a;
    assert a[..|a| - 1] + [a[|a| - 1] + b[0]] + b[1..] == a + b[1..];
  }

  /** A text made of a head, a run of blocks joined by line breaks and a tail that starts
      with a line break is the join of the head's lines, the blocks' lines and the rest
      of the tail's lines. */
  lemma FramedBlocks(head: seq<string>, groups: seq<seq<string>>, tail: seq<string>)
    requires |head| > 0 && |tail| > 0 && tail[0] == ""
    requires forall i :: 0 <= i < |groups| ==> |groups[i]| > 0
    ensures Join(head, "\n") + Join(seq(|groups|, i requires 0 <= i < |groups| => Block(groups[i])), "\n") + Join(tail, "\n")
         == Join(head + BlockLines(groups) + tail[1..], "\n")
  {
    var codes := seq(|groups|, i requires 0 <= i < |groups| => Block(groups[i]));
    var middle := head + BlockLines(groups);
    if |groups| == 0 {
      assert Join(codes, "\n") == "";
      assert middle == head;
    } else {
      JoinBlocks(groups);
      GlueAtLineBreak(head, [""] + BlockLines(groups));
      assert ([""] + BlockLines(groups))[1..] == BlockLines(groups);
    }
    assert Join(head, "\n") + Join(codes, "\n") == Join(middle, "\n");
    GlueAtLineBreak(middle, tail);
  }

  /** Lines free of line breaks, in blocks, give block lines free of line breaks. */
  lemma {:induction false} BlockLinesSingleLine(groups: seq<seq<string>>)
    requires forall i, k :: 0 <= i < |groups| && 0 <= k < |groups[i]| ==> '\n' !in groups[i][k]
    ensures forall k :: 0 <= k < |BlockLines(groups)| ==> '\n' !in BlockLines(groups)[k]
    decreases |groups|
  {
    if |groups| > 1 {
      BlockLinesSingleLine(groups[1..]);
    }
  }

  /** Three runs of lines free of line breaks, put together, are free of line breaks. */
  lemma FramedSingleLine(head: seq<string>, middle: seq<string>, tail: seq<string>)
    requires forall k :: 0 <= k < |head| ==> '\n' !in head[k]
    requires forall k :: 0 <= k < |middle| ==> '\n' !in middle[k]
    requires forall k :: 0 <= k < |tail| ==> '\n' !in tail[k]
    ensures forall k :: 0 <= k < |head + middle + tail| ==> '\n' !in (head + middle + tail)[k]
  {
    var ls := head + middle + tail;
    forall k | 0 <= k < |ls|
      ensures '\n' !in ls[k]
    {
      if k < |head| {
        assert ls[k] == head[k];
      } else if k < |head| + |middle| {
        assert ls[k] == middle[k - |head|];
      } else {
        assert ls[k] == tail[k - |head| - |middle|];
      }
    }
  }

  /** Reads a run of blocks of `size` lines each, separated by empty lines, with `read`
      given each block and its position, counting from `i`. */
  function ReadBlocks<T>(body: seq<string>, size: nat, i: nat, read: (seq<string>, nat) -> Option<T>): Option<seq<T>>
    requires size > 0
    decreases |body|
  {
    if |body| < size then None
    else
      match read(body[..size], i)
      case None => None
      case Some(x) =>
        if |body| == size then Some([x])
        else if body[size] != "" then None
        else
          match ReadBlocks(body[size + 1..], size, i + 1, read)
          case None => None
          case Some(rest) => Some([x] + rest)
  }

  /** Blocks that each read back as intended read back, as a run, as the list of what
      each one holds. */
  lemma {:induction false} ReadBlockLines<T>(groups: seq<seq<string>>, size: nat, i: nat,
                                            read: (seq<string>, nat) -> Option<T>, want: seq<T>)
    requires size > 0 && |groups| > 0 && |groups| == |want|
    requires forall j :: 0 <= j < |groups| ==> |groups[j]| == size
    requires forall j :: 0 <= j < |groups| ==> read(groups[j], i + j) == Some(want[j])
    ensures ReadBlocks(BlockLines(groups), size, i, read) == Some(want)
    decreases |groups|
  {
    var body := BlockLines(groups);
    assert read(groups[0], i + 0) == Some(want[0]);
    if |groups| == 1 {
      assert body == groups[0] && body[..size] == body;
      assert want == [want[0]];
    } else {
      var rest := BlockLines(groups[1..]);
      assert body == groups[0] + [""] + rest;
      assert body[..size] == groups[0];
      assert body[size + 1..] == rest;
      forall j | 0 <= j < |groups[1..]|
        ensures read(groups[1..][j], i + 1 + j) == Some(want[1..][j])
      {
        assert read(groups[j + 1], i + (j + 1)) == Some(want[j + 1]);
      }
      ReadBlockLines(groups[1..], size, i + 1, read, want[1..]);
      assert want == [want[0]] + want[1..];
    }
  }
}
