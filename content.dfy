/** Helpers that read message content and workdir paths. */
module Content {
  import opened Wrappers
  import opened Strings
  import opened SessionTypes

  /** The texts of the `text` blocks, in order; every other block is skipped. */
  function TextsOf(blocks: seq<ContentBlock>): (texts: seq<string>)
    ensures |texts| <= |blocks|
  {
    if blocks == [] then []
    else (if blocks[0].TextBlock? then [blocks[0].text] else []) + TextsOf(blocks[1..])
  }

  /**
   * The texts come out in block order, one per text block: none for no blocks,
   * and a block added at the end adds its text at the end exactly when it is a
   * text block.
   */
  lemma {:induction false} TextsOfSnoc(bs: seq<ContentBlock>, b: ContentBlock)
    ensures TextsOf([]) == []
    ensures TextsOf(bs + [b]) == TextsOf(bs) + (if b.TextBlock? then [b.text] else [])
  {
    if bs == [] {
      assert [] + [b] == [b];
      assert [b][1..] == [];
    } else {
      TextsOfSnoc(bs[1..], b);
      assert (bs + [b])[1..] == bs[1..] + [b];
      assert (bs + [b])[0] == bs[0];
    }
  }

  /**
   * The displayable text of message content: '' when missing or empty, a string
   * as it is, the text blocks' texts joined by newlines, or an object's non-empty
   * `text` field.
   */
  function ExtractTextContent(c: Content): string {
    match c
    case Absent => ""
    case Text(s) => s
    case Blocks(bs) => Join(TextsOf(bs), '\n')
    case TextField(t) => if t.Some? && t.value != "" then t.value else ""
  }

  /** Missing content gives '', and a string is returned unchanged. */
  lemma ExtractTextOfStringOrMissing(s: string)
    ensures ExtractTextContent(Absent) == ""
    ensures ExtractTextContent(Text(s)) == s
  {
  }

  /**
   * For a block array, the result splits back at newlines into exactly the texts
   * of the text blocks, in order, when there is at least one and none holds a
   * newline itself.
   */
  lemma BlockTextsRecoverable(bs: seq<ContentBlock>)
    requires |TextsOf(bs)| >= 1 && PiecesFree(TextsOf(bs), '\n')
    ensures Split(ExtractTextContent(Blocks(bs)), '\n') == TextsOf(bs)
  {
    JoinSplitRoundTrip(TextsOf(bs), '\n');
  }

  /** Only text blocks contribute: dropping or adding other blocks changes nothing. */
  lemma {:induction false} NonTextBlocksIgnored(bs: seq<ContentBlock>, b: ContentBlock, i: nat)
    requires !b.TextBlock? && i <= |bs|
    ensures TextsOf(bs[..i] + [b] + bs[i..]) == TextsOf(bs)
  {
    if i == 0 {
      assert ([b] + bs)[1..] == bs;
    } else {
      var t := bs[..i] + [b] + bs[i..];
      NonTextBlocksIgnored(bs[1..], b, i - 1);
      assert t[1..] == bs[1..][..i - 1] + [b] + bs[1..][i - 1..];
      assert t[0] == bs[0];
    }
  }

  /** An object yields its `text` field exactly when that field is present and non-empty. */
  lemma ExtractTextOfObject(t: Option<string>)
    ensures ExtractTextContent(TextField(t)) != "" <==> (t.Some? && t.value != "")
    ensures t.Some? && t.value != "" ==> ExtractTextContent(TextField(t)) == t.value
  {
  }

  /** Whether content is a block array holding a `tool_use` block. */
  function HasToolUse(c: Content): (r: bool)
    ensures r <==> c.Blocks? && exists i :: 0 <= i < |c.blocks| && c.blocks[i].ToolUse?
  {
    c.Blocks? && AnyToolUse(c.blocks)
  }

  function AnyToolUse(bs: seq<ContentBlock>): (r: bool)
    ensures r <==> exists i :: 0 <= i < |bs| && bs[i].ToolUse?
  {
    if bs == [] then false
    else if bs[0].ToolUse? then true
    else
      assert forall i :: 0 < i < |bs| ==> bs[i] == bs[1..][i - 1];
      AnyToolUse(bs[1..])
  }

  /** The last segment of a workdir path: the text after its last '/'. */
  function GetWorkdirName(workdir: string): (r: string)
    ensures '/' !in r && |r| <= |workdir| && r == workdir[|workdir| - |r|..]
    ensures |r| < |workdir| ==> workdir[|workdir| - |r| - 1] == '/'
    ensures '/' !in workdir ==> r == workdir
  {
    LastSegment(workdir, '/')
  }

  /** The three documented cases: a nested path, a single segment and a trailing slash. */
  lemma WorkdirNameExamples()
    ensures GetWorkdirName("/home/user/project") == "project"
    ensures GetWorkdirName("project") == "project"
    ensures GetWorkdirName("/home/user/project/") == ""
  {
    var a := "/home/user/project";
    assert a == "/home/user" + ['/'] + "project";
    assert '/' !in "project";
  }
}
