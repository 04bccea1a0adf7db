/** The logic of the answer node component: which bullets it shows, and how
    a click on a bullet's Expand, Sources or Custom button is forwarded to
    the callback the canvas put in the node's data. */
module AnswerNode {
  import opened Wrappers
  import opened Text
  import opened Graph

  /** `data.label || ''`: a missing label reads as the empty string (an
      empty label is already empty). */
  function LabelOrEmpty(data: NodeData): (s: string)
    ensures data.nodeLabel.Some? ==> s == data.nodeLabel.value
    ensures data.nodeLabel.None? ==> s == ""
  {
    data.nodeLabel.GetOr("")
  }

  /** The bullets of a label: its lines that hold a non-whitespace
      character, in order. */
  function LabelLines(text: string): (lines: seq<string>)
    ensures forall i :: 0 <= i < |lines| ==> !IsBlank(lines[i]) && '\n' !in lines[i]
  {
    SegmentsHaveNoSeparator(text, '\n');
    NonBlank(Split(text, '\n'))
  }

  /** The bullets shown: `data.bullets` when it is an array, otherwise the
      non-blank lines of the label. */
  function DeriveBullets(data: NodeData): (bullets: seq<string>)
    ensures data.bullets.Some? ==> bullets == data.bullets.value
    ensures data.bullets.None? ==> bullets == LabelLines(LabelOrEmpty(data))
  {
    match data.bullets
    case Some(b) => b
    case None => LabelLines(LabelOrEmpty(data))
  }

  /** Without a bullets array, the bullets are exactly the non-blank lines
      of the label: each bullet is a line, and no non-blank line is lost. */
  lemma BulletsAreNonBlankLines(data: NodeData)
    requires data.bullets.None?
    ensures forall b :: b in DeriveBullets(data) ==>
      b in Split(LabelOrEmpty(data), '\n') && !IsBlank(b) && '\n' !in b
    ensures forall line :: line in Split(LabelOrEmpty(data), '\n') && !IsBlank(line) ==>
      line in DeriveBullets(data)
  {
    forall line | line in Split(LabelOrEmpty(data), '\n') && !IsBlank(line)
      ensures line in DeriveBullets(data)
    {
      NonBlankKeeps(Split(LabelOrEmpty(data), '\n'), line);
    }
  }

  /** A node with neither a bullets array nor a non-empty label shows no
      bullets. */
  lemma MissingLabelNoBullets(data: NodeData)
    requires data.bullets.None? && (data.nodeLabel.None? || data.nodeLabel == Some(""))
    ensures DeriveBullets(data) == []
  {
    assert Split("", '\n') == [""];
  }

  /** Line order is kept: the bullets of two labels joined by a line break
      are the bullets of the first followed by those of the second. */
  lemma LabelLinesConcat(a: string, b: string)
    ensures LabelLines(a + "\n" + b) == LabelLines(a) + LabelLines(b)
  {
    SplitConcat(a, b, '\n');
    NonBlankAppend(Split(a, '\n'), Split(b, '\n'));
  }

  /** When no line of the label is blank, joining the bullets with line
      breaks gives the label back. */
  lemma LabelRoundTrip(data: NodeData, text: string)
    requires data.bullets.None? && data.nodeLabel == Some(text)
    requires forall i :: 0 <= i < |Split(text, '\n')| ==> !IsBlank(Split(text, '\n')[i])
    ensures Join(DeriveBullets(data), '\n') == text
  {
    NonBlankIdentity(Split(text, '\n'));
    JoinSplit(text, '\n');
  }

  /** `bullets[i]`: the bullet at index `i`, `undefined` (None) outside the
      list. */
  function BulletAt(bullets: seq<string>, i: int): (r: Option<string>)
    ensures r.Some? <==> 0 <= i < |bullets|
    ensures r.Some? ==> r.value == bullets[i]
  {
    if 0 <= i < |bullets| then Some(bullets[i]) else None
  }

  /** The call `data.on*(id, bulletIndex, bullets[bulletIndex])`. */
  datatype Invocation = Invocation(action: Action, nodeId: string, bulletIndex: int, bulletText: Option<string>)

  /** `handleExpand`, `handleSources` and `handleCustomQuery`: if the
      callback for `action` is present, it is called with the node id, the
      index and the bullet at that index; otherwise nothing happens. */
  function Forward(data: NodeData, id: string, action: Action, bulletIndex: int): (r: Option<Invocation>)
    ensures r.None? <==> action !in data.callbacks
  {
    if action in data.callbacks then
      Some(Invocation(action, id, bulletIndex, BulletAt(DeriveBullets(data), bulletIndex)))
    else
      None
  }

  /** Bullet addressing round-trip: a click on the bullet at index `i`
      reaches the callback with this node's id, `i` and that very bullet;
      and whatever text reaches a callback is the bullet at the index passed
      with it. */
  lemma ForwardAddressesBullet(data: NodeData, id: string, action: Action, i: int)
    ensures action in data.callbacks && 0 <= i < |DeriveBullets(data)| ==>
      Forward(data, id, action, i) == Some(Invocation(action, id, i, Some(DeriveBullets(data)[i])))
    ensures Forward(data, id, action, i).Some? ==>
      var call := Forward(data, id, action, i).value;
      call.action == action && call.nodeId == id && call.bulletIndex == i &&
      (call.bulletText.Some? ==>
        0 <= i < |DeriveBullets(data)| && DeriveBullets(data)[call.bulletIndex] == call.bulletText.value)
  {
  }

  /** Bullets `["a", "b", "c"]` and index 1: the sources callback receives
      `"b"`. */
  lemma SourcesOfSecondBullet()
    ensures
      var data := NodeData(None, Some(["a", "b", "c"]), None, {OnSources});
      Forward(data, "answer-1", OnSources, 1) == Some(Invocation(OnSources, "answer-1", 1, Some("b")))
  {
  }
}
