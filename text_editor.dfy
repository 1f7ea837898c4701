/**
 * The browser-side page editor: slug generation from the title, the slug
 * auto-fill flag, and the text edits on the content textarea (Tab, Shift-Tab,
 * wrapping the selection, inserting at the start of the caret's line).
 *
 * The textarea is a class whose value and selection follow the HTML rules for
 * `value`, `selectionStart`, `selectionEnd` and `setRangeText`, because the
 * handlers rely on those setters in sequence.
 */
module TextEditor {
  import opened Wrappers
  import opened JsString
  import Urls

  // ---------------------------------------------------------------- toSlug

  /** `\w`: an ASCII letter, digit or underscore. */
  predicate IsWordChar(c: char) {
    ('a' <= c <= 'z') || ('A' <= c <= 'Z') || IsDigit(c) || c == '_'
  }

  /** The characters `[^\w\s-]` does not match, so they survive the first replace. */
  predicate IsKept(c: char) {
    IsWordChar(c) || IsJsSpace(c) || c == '-'
  }

  predicate IsUpper(c: char) {
    'A' <= c <= 'Z'
  }

  /** `.replace(/[^\w\s-]/g, "")`: drops every other character, keeping the order of the rest. */
  function KeepSlugText(s: string): (r: string)
    ensures |r| <= |s|
    ensures forall i :: 0 <= i < |r| ==> IsKept(r[i]) && r[i] in s
  {
    if s == [] then []
    else (if IsKept(s[0]) then [s[0]] else []) + KeepSlugText(s[1..])
  }

  /** `.replace(/[\s_]+/g, "-")`: each maximal run of white space and underscores becomes one hyphen. */
  function DashForRuns(s: string, inRun: bool): (r: string)
    ensures forall i :: 0 <= i < |r| ==> r[i] == '-' || (r[i] in s && !IsJsSpace(r[i]) && r[i] != '_')
  {
    if s == [] then []
    else if IsJsSpace(s[0]) || s[0] == '_' then (if inRun then [] else "-") + DashForRuns(s[1..], true)
    else [s[0]] + DashForRuns(s[1..], false)
  }

  /** No two adjacent hyphens. */
  predicate NoDoubleDash(s: string) {
    forall i :: 0 <= i < |s| - 1 ==> !(s[i] == '-' && s[i + 1] == '-')
  }

  /** `.replace(/-+/g, "-")`: each maximal run of hyphens becomes one. */
  function CollapseDashes(s: string, inRun: bool): (r: string)
    ensures forall i :: 0 <= i < |r| ==> r[i] in s
    ensures NoDoubleDash(r)
    ensures inRun && r != [] ==> r[0] != '-'
  {
    if s == [] then []
    else if s[0] == '-' then (if inRun then [] else "-") + CollapseDashes(s[1..], true)
    else [s[0]] + CollapseDashes(s[1..], false)
  }

  /**
   * `.replace(/^-|-$/g, "")`: one hyphen at the start and one at the end are
   * removed; a lone "-" matches only the first alternative.
   */
  function StripEndDashes(s: string): string {
    var a := if s != [] && s[0] == '-' then s[1..] else s;
    if a != [] && a[|a| - 1] == '-' then a[..|a| - 1] else a
  }

  /** `toSlug(text)`: lower-case, trim, then the four replaces in order. */
  function ToSlug(text: string): string {
    StripEndDashes(CollapseDashes(DashForRuns(KeepSlugText(Trim(ToLower(text))), false), false))
  }

  /** Only `[a-z0-9-]`, no hyphen at either end, and never two hyphens in a row. */
  predicate SlugShaped(s: string) {
    && (forall i :: 0 <= i < |s| ==> Urls.IsSlugChar(s[i]))
    && (s != [] ==> s[0] != '-' && s[|s| - 1] != '-')
    && NoDoubleDash(s)
  }

  /** Removing one hyphen from each end of a string without double hyphens leaves none at either end. */
  lemma StripEndDashesEnds(s: string)
    requires NoDoubleDash(s)
    ensures var r := StripEndDashes(s);
      && (forall c :: c in r ==> c in s)
      && NoDoubleDash(r)
      && (r != [] ==> r[0] != '-' && r[|r| - 1] != '-')
  {
    var a := if s != [] && s[0] == '-' then s[1..] else s;
    assert NoDoubleDash(a);
    assert a != [] ==> a[0] != '-' by {
      if a != [] && s != [] && s[0] == '-' {
        assert a[0] == s[1];
      }
    }
    var r := StripEndDashes(s);
    if a != [] && a[|a| - 1] == '-' {
      assert r == a[..|a| - 1];
      if r != [] {
        assert r[|r| - 1] == a[|a| - 2];
      }
    }
  }

  /** Trimming a lower-cased string leaves no upper-case letter. */
  lemma TrimmedLower(text: string)
    ensures forall c :: c in Trim(ToLower(text)) ==> !IsUpper(c)
  {
    var lower := ToLower(text);
    assert forall c :: c in lower ==> !IsUpper(c);
    TrimKeepsChars(lower);
  }

  lemma TrimKeepsChars(s: string)
    ensures forall c :: c in Trim(s) ==> c in s
  {
    var r := Trim(s);
    var k := |s| - |TrimStart(s)|;
    assert r == s[k..k + |r|];
  }

  /** Before the last replace, only slug characters and no double hyphens are left. */
  lemma CollapsedSlugChars(text: string)
    ensures var c := CollapseDashes(DashForRuns(KeepSlugText(Trim(ToLower(text))), false), false);
      forall ch :: ch in c ==> Urls.IsSlugChar(ch)
  {
    var trimmed := Trim(ToLower(text));
    TrimmedLower(text);
    var kept := KeepSlugText(trimmed);
    assert forall i :: 0 <= i < |kept| ==> !IsUpper(kept[i]);
    var dashed := DashForRuns(kept, false);
    assert forall i :: 0 <= i < |dashed| ==> Urls.IsSlugChar(dashed[i]);
  }

  /** Every output of `toSlug` has the slug shape. */
  lemma ToSlugShaped(text: string)
    ensures SlugShaped(ToSlug(text))
  {
    var collapsed := CollapseDashes(DashForRuns(KeepSlugText(Trim(ToLower(text))), false), false);
    CollapsedSlugChars(text);
    StripEndDashesEnds(collapsed);
    var r := ToSlug(text);
    assert r == StripEndDashes(collapsed);
    assert forall i :: 0 <= i < |r| ==> r[i] in collapsed;
  }

  /** A non-empty `toSlug` result matches the slug field's `pattern="[a-z0-9-]+"`. */
  lemma ToSlugMatchesPattern(text: string)
    requires ToSlug(text) != []
    ensures Urls.IsSlug(ToSlug(text))
  {
    ToSlugShaped(text);
  }

  lemma {:induction false} ToLowerFixed(s: string)
    requires forall i :: 0 <= i < |s| ==> !IsUpper(s[i])
    ensures ToLower(s) == s
  {
  }

  lemma {:induction false} KeepSlugTextFixed(s: string)
    requires forall i :: 0 <= i < |s| ==> IsKept(s[i])
    ensures KeepSlugText(s) == s
  {
    if s != [] {
      KeepSlugTextFixed(s[1..]);
      assert s == [s[0]] + s[1..];
    }
  }

  lemma {:induction false} DashForRunsFixed(s: string, inRun: bool)
    requires forall i :: 0 <= i < |s| ==> !IsJsSpace(s[i]) && s[i] != '_'
    ensures DashForRuns(s, inRun) == s
  {
    if s != [] {
      DashForRunsFixed(s[1..], false);
      assert s == [s[0]] + s[1..];
    }
  }

  lemma {:induction false} CollapseDashesFixed(s: string, inRun: bool)
    requires NoDoubleDash(s)
    requires inRun ==> s == [] || s[0] != '-'
    ensures CollapseDashes(s, inRun) == s
  {
    if s != [] {
      var rest := s[1..];
      assert NoDoubleDash(rest) by {
        forall i | 0 <= i < |rest| - 1
          ensures !(rest[i] == '-' && rest[i + 1] == '-')
        {
          assert rest[i] == s[i + 1] && rest[i + 1] == s[i + 2];
        }
      }
      assert s[0] == '-' ==> rest == [] || rest[0] != '-' by {
        if s[0] == '-' && rest != [] {
          assert rest[0] == s[1];
        }
      }
      CollapseDashesFixed(rest, s[0] == '-');
      assert s == [s[0]] + rest;
    }
  }

  lemma NoSpaceTrimmed(s: string)
    requires NoSpace(s)
    ensures Trim(s) == s
  {
    TrimUnique(s, 0, |s|);
  }

  lemma StripEndDashesFixed(s: string)
    requires s != [] ==> s[0] != '-' && s[|s| - 1] != '-'
    ensures StripEndDashes(s) == s
  {
  }

  /** Lower-casing and trimming leave a slug-shaped string alone. */
  lemma SlugShapedCaseAndSpace(s: string)
    requires SlugShaped(s)
    ensures Trim(ToLower(s)) == s
  {
    forall i | 0 <= i < |s|
      ensures !IsUpper(s[i]) && !IsJsSpace(s[i])
    {
      assert Urls.IsSlugChar(s[i]);
    }
    ToLowerFixed(s);
    NoSpaceTrimmed(s);
  }

  /** The two character-class replaces leave a slug-shaped string alone. */
  lemma SlugShapedClasses(s: string)
    requires SlugShaped(s)
    ensures DashForRuns(KeepSlugText(s), false) == s
  {
    forall i | 0 <= i < |s|
      ensures IsKept(s[i]) && !IsJsSpace(s[i]) && s[i] != '_'
    {
      assert Urls.IsSlugChar(s[i]);
    }
    KeepSlugTextFixed(s);
    DashForRunsFixed(s, false);
  }

  /** A string of slug shape passes through every step unchanged. */
  lemma SlugShapedFixed(s: string)
    requires SlugShaped(s)
    ensures ToSlug(s) == s
  {
    SlugShapedCaseAndSpace(s);
    SlugShapedClasses(s);
    CollapseDashesFixed(s, false);
    StripEndDashesFixed(s);
  }

  /** `toSlug` is idempotent: slugifying a slug gives it back. */
  lemma ToSlugIdempotent(text: string)
    ensures ToSlug(ToSlug(text)) == ToSlug(text)
  {
    ToSlugShaped(text);
    SlugShapedFixed(ToSlug(text));
  }

  // ---------------------------------------------------------------- slug auto-fill

  /** `isNewPage`: the form's hidden `id` input exists and is empty. */
  predicate IsNewPage(idInput: Option<string>) {
    idInput == Some("")
  }

  /**
   * The title and slug inputs of the page form. The listeners that fill the slug
   * are attached only on a new page; `slugManuallyEdited` starts false there.
   */
  class SlugAutoFill {
    const newPage: bool
    var slug: string
    var slugManuallyEdited: bool

    predicate Valid()
      reads this
    {
      slugManuallyEdited ==> newPage
    }

    constructor(idInput: Option<string>, initialSlug: string)
      ensures newPage == IsNewPage(idInput) && slug == initialSlug && !slugManuallyEdited
      ensures Valid()
    {
      newPage := IsNewPage(idInput);
      slug := initialSlug;
      slugManuallyEdited := false;
    }

    /** Typing in the slug field: the text is the user's, and on a new page auto-fill stops for good. */
    method SlugInput(typed: string)
      requires Valid()
      modifies this
      ensures Valid()
      ensures slug == typed
      ensures slugManuallyEdited == (old(slugManuallyEdited) || newPage)
    {
      slug := typed;
      if newPage {
        slugManuallyEdited := true;
      }
    }

    /** Typing in the title field: the slug follows the title only on a new page not yet edited by hand. */
    method TitleInput(title: string)
      requires Valid()
      modifies this
      ensures Valid()
      ensures slugManuallyEdited == old(slugManuallyEdited)
      ensures newPage && !slugManuallyEdited ==> slug == ToSlug(title) && SlugShaped(slug)
      ensures !newPage || slugManuallyEdited ==> slug == old(slug)
    {
      if newPage && !slugManuallyEdited {
        slug := ToSlug(title);
        ToSlugShaped(title);
      }
    }
  }

  // ---------------------------------------------------------------- line helpers

  /** `before.lastIndexOf("\n") + 1` with `before == v[..k]`: the start of the line holding position `k`. */
  function LineStart(v: string, k: nat): (p: nat)
    requires k <= |v|
    ensures p <= k
    ensures p > 0 ==> v[p - 1] == '\n'
    ensures forall i :: p <= i < k ==> v[i] != '\n'
  {
    if k == 0 then 0 else if v[k - 1] == '\n' then k else LineStart(v, k - 1)
  }

  /** `s.replace(/^  /, "")`: two leading spaces of the string removed, if it has them. */
  function StripIndent(s: string): string {
    if StartsWith(s, "  ") then s[2..] else s
  }

  /**
   * `s.replace(/^  /gm, "")`: two spaces removed wherever they start a line,
   * a line starting after any ECMAScript line terminator. `atLineStart` says
   * whether the scan stands at the start of a line.
   */
  function Unindent(s: string, atLineStart: bool): (r: string)
    ensures |r| <= |s|
  {
    if s == [] then []
    else if atLineStart && |s| >= 2 && s[0] == ' ' && s[1] == ' ' then Unindent(s[2..], false)
    else [s[0]] + Unindent(s[1..], IsLineTerminator(s[0]))
  }

  predicate OneLine(s: string) {
    forall i :: 0 <= i < |s| ==> !IsLineTerminator(s[i])
  }

  /** Inside a line, nothing is removed. */
  lemma {:induction false} UnindentMidLine(s: string)
    requires OneLine(s)
    ensures Unindent(s, false) == s
  {
    if s != [] {
      UnindentMidLine(s[1..]);
      assert s == [s[0]] + s[1..];
    }
  }

  /** On one line, exactly the two leading spaces go, when the line has them. */
  lemma UnindentOneLine(s: string)
    requires OneLine(s)
    ensures Unindent(s, true) == StripIndent(s)
  {
    if s != [] {
      if |s| >= 2 && s[0] == ' ' && s[1] == ' ' {
        UnindentMidLine(s[2..]);
      } else {
        UnindentMidLine(s[1..]);
        assert s == [s[0]] + s[1..];
      }
    }
  }

  /** Lines are unindented independently: a line terminator restarts the rule for what follows it. */
  lemma {:induction false} UnindentLines(a: string, t: char, b: string, atLineStart: bool)
    requires IsLineTerminator(t)
    ensures Unindent(a + [t] + b, atLineStart) == Unindent(a, atLineStart) + [t] + Unindent(b, true)
  {
    var s := a + [t] + b;
    if a == [] {
      assert s == [t] + b;
      assert s[1..] == b;
    } else {
      assert s[0] == a[0];
      assert |s| >= 2 && s[1] == (if |a| >= 2 then a[1] else t);
      var skip := atLineStart && |a| >= 2 && a[0] == ' ' && a[1] == ' ';
      assert skip <==> atLineStart && |s| >= 2 && s[0] == ' ' && s[1] == ' ';
      if skip {
        assert s[2..] == a[2..] + [t] + b;
        UnindentLines(a[2..], t, b, false);
      } else {
        var next := IsLineTerminator(a[0]);
        assert s[1..] == a[1..] + [t] + b;
        UnindentLines(a[1..], t, b, next);
        var u := Unindent(a[1..], next);
        var w := Unindent(b, true);
        assert Unindent(s, atLineStart) == [a[0]] + (u + [t] + w);
        assert Unindent(a, atLineStart) == [a[0]] + u;
        ConsAssoc(a[0], u, t, w);
      }
    }
  }

  lemma ConsAssoc(c: char, u: string, t: char, w: string)
    ensures [c] + (u + [t] + w) == [c] + u + [t] + w
  {
  }

  // ---------------------------------------------------------------- the textarea

  /** `setRangeText`'s selection modes that the editor uses. */
  datatype SelectMode = SelectInserted | CaretAfter

  /** The indent Shift-Tab removes from the caret's line before the caret: two spaces, or nothing. */
  function IndentBefore(v: string, k: nat): (n: nat)
    requires k <= |v|
    ensures n == 0 || n == 2
    ensures n == 2 <==> StartsWith(v[LineStart(v, k)..k], "  ")
  {
    var prefix := v[LineStart(v, k)..k];
    |prefix| - |StripIndent(prefix)|
  }

  function Min(a: int, b: int): int {
    if a <= b then a else b
  }

  function Max(a: int, b: int): int {
    if a <= b then b else a
  }

  /** Clamping to a bound and then to a smaller one is clamping to the smaller one. */
  lemma MinOfClamped(a: int, bound: int, b: int)
    requires b <= bound
    ensures Min(Min(a, bound), b) == Min(a, b)
  {
  }

  /**
   * The content textarea. `value` is the API value; the selection is a pair of
   * offsets with `selectionStart <= selectionEnd <= |value|`, which every setter keeps.
   */
  class TextArea {
    var value: string
    var selectionStart: nat
    var selectionEnd: nat

    predicate Valid()
      reads this
    {
      selectionStart <= selectionEnd <= |value|
    }

    constructor(v: string, start: nat, end: nat)
      requires start <= end <= |v|
      ensures value == v && selectionStart == start && selectionEnd == end
      ensures Valid()
    {
      value, selectionStart, selectionEnd := v, start, end;
    }

    /** The `value` setter: a new value moves the caret to its end; the same value leaves the selection alone. */
    method SetValue(v: string)
      requires Valid()
      modifies this
      ensures Valid()
      ensures value == v
      ensures v != old(value) ==> selectionStart == selectionEnd == |v|
      ensures v == old(value) ==> selectionStart == old(selectionStart) && selectionEnd == old(selectionEnd)
    {
      if v != value {
        value := v;
        selectionStart, selectionEnd := |v|, |v|;
      }
    }

    /** The `selectionStart` setter: clamped to the value, and it pushes the selection end up to it. */
    method SetSelectionStart(x: nat)
      requires Valid()
      modifies this
      ensures Valid()
      ensures value == old(value)
      ensures selectionStart == Min(x, |value|)
      ensures selectionEnd == Max(old(selectionEnd), selectionStart)
    {
      var s := Min(x, |value|);
      selectionStart, selectionEnd := s, Max(selectionEnd, s);
    }

    /** The `selectionEnd` setter: clamped to the value; an end before the start pulls the start down with it. */
    method SetSelectionEnd(x: nat)
      requires Valid()
      modifies this
      ensures Valid()
      ensures value == old(value)
      ensures selectionEnd == Min(x, |value|)
      ensures selectionStart == Min(old(selectionStart), selectionEnd)
    {
      var e := Min(x, |value|);
      if e <= selectionStart {
        selectionStart, selectionEnd := e, e;
      } else {
        selectionEnd := e;
      }
    }

    /**
     * `setRangeText(replacement, start, end, mode)`: the range is replaced, and the
     * selection becomes the inserted text ("select") or the caret after it ("end").
     */
    method SetRangeText(replacement: string, start: nat, end: nat, mode: SelectMode)
      requires Valid() && start <= end <= |value|
      modifies this
      ensures Valid()
      ensures value == old(value)[..start] + replacement + old(value)[end..]
      ensures mode == SelectInserted ==> selectionStart == start && selectionEnd == start + |replacement|
      ensures mode == CaretAfter ==> selectionStart == selectionEnd == start + |replacement|
    {
      value := value[..start] + replacement + value[end..];
      if mode == SelectInserted {
        selectionStart, selectionEnd := start, start + |replacement|;
      } else {
        selectionStart, selectionEnd := start + |replacement|, start + |replacement|;
      }
    }

    /** Tab: the selection is replaced by two spaces and the caret lands after them. */
    method Tab()
      requires Valid()
      modifies this
      ensures Valid()
      ensures value == old(value)[..old(selectionStart)] + "  " + old(value)[old(selectionEnd)..]
      ensures selectionStart == selectionEnd == old(selectionStart) + 2
    {
      var start, end := selectionStart, selectionEnd;
      SetValue(value[..start] + "  " + value[end..]);
      SetSelectionEnd(start + 2);
      SetSelectionStart(start + 2);
    }

    /**
     * Shift-Tab: the block from the caret line's start to the selection end is
     * unindented line by line; text before and after the block is kept, and the
     * selection end moves back by exactly the number of characters removed.
     */
    method ShiftTab()
      requires Valid()
      modifies this
      ensures Valid()
      ensures var lineStart := LineStart(old(value), old(selectionStart));
        value == old(value)[..lineStart]
                 + Unindent(old(value)[lineStart..old(selectionEnd)], true)
                 + old(value)[old(selectionEnd)..]
      ensures selectionEnd == old(selectionEnd) - (|old(value)| - |value|)
      ensures selectionStart == Min(Max(LineStart(old(value), old(selectionStart)),
                                        old(selectionStart) - IndentBefore(old(value), old(selectionStart))),
                                    selectionEnd)
    {
      var start, end := selectionStart, selectionEnd;
      var lineStart := LineStart(value, start);
      var unindented := Unindent(value[lineStart..end], true);
      var removed := (end - lineStart) - |unindented|;
      var caret := Max(lineStart, start - IndentBefore(value, start));
      SetValue(value[..lineStart] + unindented + value[end..]);
      assert |value| == |old(value)| - removed;
      SetSelectionStart(caret);
      SetSelectionEnd(end - removed);
      MinOfClamped(caret, |value|, selectionEnd);
    }

    /**
     * `wrapSelection(before, after, placeholder)`: the selection is replaced by
     * `before + s + after`, `s` being the selected text, else the placeholder,
     * else "text"; afterwards exactly `s` is selected.
     */
    method WrapSelection(before: string, after: string, placeholder: Option<string>) returns (s: string)
      requires Valid()
      modifies this
      ensures Valid()
      ensures var selected := old(value)[old(selectionStart)..old(selectionEnd)];
        s == OrElse(Some(selected), OrElse(placeholder, "text"))
      ensures s != []
      ensures value == old(value)[..old(selectionStart)] + before + s + after + old(value)[old(selectionEnd)..]
      ensures selectionStart == old(selectionStart) + |before| && selectionEnd == selectionStart + |s|
      ensures value[selectionStart..selectionEnd] == s
    {
      var start, end := selectionStart, selectionEnd;
      var prior := value;
      s := OrElse(Some(value[start..end]), OrElse(placeholder, "text"));
      var replacement := before + s + after;
      SetRangeText(replacement, start, end, SelectInserted);
      SetSelectionStart(start + |before|);
      SetSelectionEnd(start + |before| + |s|);
      Wrapped(prior[..start], before, s, after, prior[end..]);
    }

    /** The wrapped text sits right after the head and the opening marker. */
    static lemma Wrapped(head: string, before: string, s: string, after: string, tail: string)
      ensures head + (before + s + after) + tail == head + before + s + after + tail
      ensures (head + before + s + after + tail)[|head| + |before|..|head| + |before| + |s|] == s
    {
      var w := head + before + s + after + tail;
      assert w == (head + before) + s + (after + tail);
    }

    /** `insertAtLineStart(prefix)`: the prefix goes in at the start of the caret's line, and the caret follows it. */
    method InsertAtLineStart(prefix: string)
      requires Valid()
      modifies this
      ensures Valid()
      ensures var lineStart := LineStart(old(value), old(selectionStart));
        && value == old(value)[..lineStart] + prefix + old(value)[lineStart..]
        && selectionStart == selectionEnd == lineStart + |prefix|
    {
      var lineStart := LineStart(value, selectionStart);
      SetRangeText(prefix, lineStart, lineStart, CaretAfter);
    }

    /** A toolbar button: the eight named actions; any other name does nothing. */
    method ToolbarAction(action: string)
      requires Valid()
      modifies this
      ensures Valid()
      ensures action !in ToolbarActions ==>
        (value == old(value) && selectionStart == old(selectionStart) && selectionEnd == old(selectionEnd))
    {
      match action {
        case "bold" => var _ := WrapSelection("**", "**", Some("bold text"));
        case "italic" => var _ := WrapSelection("_", "_", Some("italic text"));
        case "heading" => InsertAtLineStart("## ");
        case "link" => var _ := WrapSelection("[", "](url)", Some("link text"));
        case "code" => var _ := WrapSelection("`", "`", Some("code"));
        case "codeblock" => var _ := WrapSelection("\n```\n", "\n```\n", Some("code here"));
        case "ul" => InsertAtLineStart("- ");
        case "quote" => InsertAtLineStart("> ");
        case _ =>
      }
    }

    /** Ctrl/Cmd shortcuts: B and I wrap the selection in bold and italic markers without a placeholder. */
    method Shortcut(key: string)
      requires Valid()
      modifies this
      ensures Valid()
      ensures ToLower(key) != "b" && ToLower(key) != "i" ==>
        (value == old(value) && selectionStart == old(selectionStart) && selectionEnd == old(selectionEnd))
    {
      var k := ToLower(key);
      if k == "b" {
        var _ := WrapSelection("**", "**", None);
      } else if k == "i" {
        var _ := WrapSelection("_", "_", None);
      }
    }
  }

  const ToolbarActions: set<string> := {"bold", "italic", "heading", "link", "code", "codeblock", "ul", "quote"}
}
