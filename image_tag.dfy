/**
 * Inserting an image tag into a post's text at the textarea's selection, as
 * both blog editors (the site's and the admin panel's) do.
 */
module ImageTag {

  /** How `substring` clamps an index into `[0, n]`. */
  function ClampToLength(i: int, n: nat): (r: nat)
    ensures r <= n
    ensures 0 <= i <= n ==> r == i
  {
    if i < 0 then 0 else if i > n then n else i
  }

  /** `s.substring(a, b)`: both ends clamped, then swapped if out of order. */
  function Substring(s: string, a: int, b: int): (r: string)
    ensures 0 <= a <= b <= |s| ==> r == s[a..b]
  {
    var x := ClampToLength(a, |s|);
    var y := ClampToLength(b, |s|);
    if x <= y then s[x..y] else s[y..x]
  }

  /** The new text: the tag on its own line in place of the selected range. */
  function InsertTag(text: string, start: int, end: int, tag: string): string {
    Substring(text, 0, start) + "\n" + tag + "\n" + Substring(text, end, |text|)
  }

  /** Where the cursor is put afterwards. */
  function CursorAfter(start: int, tag: string): int {
    start + |tag| + 2
  }

  /**
   * For a selection inside the text: the selection is replaced by the block,
   * the length changes by the block's length minus the selection's, and the
   * cursor lands right after the block, before the text that followed the
   * selection.
   */
  lemma InsertTagSplices(text: string, start: int, end: int, tag: string)
    requires 0 <= start <= end <= |text|
    ensures var t := InsertTag(text, start, end, tag);
      && t == text[..start] + "\n" + tag + "\n" + text[end..]
      && |t| == |text| - (end - start) + |tag| + 2
      && 0 <= start <= CursorAfter(start, tag) <= |t|
      && t[..start] == text[..start]
      && t[start..CursorAfter(start, tag)] == "\n" + tag + "\n"
      && t[CursorAfter(start, tag)..] == text[end..]
  {
    var t := InsertTag(text, start, end, tag);
    var block := "\n" + tag + "\n";
    assert t == text[..start] + block + text[end..];
    assert t[..start] == text[..start];
    assert t[start..CursorAfter(start, tag)] == block;
    assert t[CursorAfter(start, tag)..] == text[end..];
  }

  /** With the cursor at the end of the text, the block is appended. */
  lemma InsertAtEndAppends(text: string, tag: string)
    ensures InsertTag(text, |text|, |text|, tag) == text + "\n" + tag + "\n"
  {
    assert Substring(text, |text|, |text|) == "";
    assert Substring(text, 0, |text|) == text;
  }
}
