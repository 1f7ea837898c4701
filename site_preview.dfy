/**
 * The live preview of the site editor: the layout html has its template tokens
 * substituted with placeholder values and the page content is slotted in,
 * then css and js are put into a standalone document. The server-side editor
 * (CodeMirror panes) and the plain-textarea script build the same document.
 */
module SitePreview {
  import opened Wrappers
  import opened JsString

  const ContentHtml := "<main><h1>Preview</h1><p>Your page content renders here.</p></main>"
  const NavLink := "<a href=\"#\">"
  const NavHtml := NavLink + "Home</a>" + NavLink + "About</a>" + NavLink + "Posts</a>"
  const ContentToken := "{{content}}"

  /** The six layout tokens, in the order they are substituted. */
  const Tokens: seq<string> := ["{{nav}}", "{{siteTagline}}", "{{homeHref}}", "{{year}}", "{{authLinksBlock}}", "{{navToggle}}"]

  /** The placeholder each token is replaced with; the year is the current one. */
  function Replacements(year: int): (r: seq<string>)
    ensures |r| == |Tokens|
  {
    [NavHtml, "Edit your site layout", "/", IntToString(year), "", ""]
  }

  /**
   * Replaces every occurrence of `tokens[i]` by `reps[i]`, for `i` from the
   * first token to the last, each pass over the output of the one before.
   */
  function ReplaceInOrder(html: string, tokens: seq<string>, reps: seq<string>): string
    requires |tokens| == |reps| && forall i :: 0 <= i < |tokens| ==> tokens[i] != []
    decreases |tokens|
  {
    if tokens == [] then html
    else ReplaceInOrder(ReplaceAll(html, tokens[0], reps[0]), tokens[1..], reps[1..])
  }

  /** The chain of six `replaceAll` calls on the layout html. */
  function SubstituteTokens(html: string, year: int): string {
    ReplaceInOrder(html, Tokens, Replacements(year))
  }

  /** `{{content}}` is replaced everywhere when present; otherwise the content follows the body on a new line. */
  function ResolveBody(body: string): string {
    if Contains(body, ContentToken) then ReplaceAll(body, ContentToken, ContentHtml)
    else body + "\n" + ContentHtml
  }

  const DocHead := "<!DOCTYPE html>\n<html lang=\"en\">\n  <head>\n    <meta charset=\"UTF-8\" />\n"
    + "    <meta name=\"viewport\" content=\"width=device-width, initial-scale=1.0\" />\n    <style>"
  const StyleToBody := "</style>\n  </head>\n  <body>\n    "
  const BodyToScript := "\n    <script type=\"module\">"
  const DocTail := "</script>\n  </body>\n</html>"

  /** `buildPreviewHtml`: the document around the css, the resolved body and the js. */
  function BuildPreviewHtml(html: string, css: string, js: string, year: int): string {
    DocHead + css + StyleToBody + ResolveBody(SubstituteTokens(html, year)) + BodyToScript + js + DocTail
  }

  /** `getEditorValue(editor) || ""`: a missing editor reads as the empty string. */
  function EditorValue(editor: Option<string>): (v: string)
    ensures editor.None? ==> v == ""
    ensures editor.Some? ==> v == editor.value
  {
    if editor.Some? then editor.value else ""
  }

  /** The CodeMirror variant: each pane's text, or "" for a pane that is missing. */
  function BuildPreviewFromEditors(html: Option<string>, css: Option<string>, js: Option<string>, year: int): string {
    BuildPreviewHtml(EditorValue(html), EditorValue(css), EditorValue(js), year)
  }

  // ---------------------------------------------------------------- properties

  predicate HasNoToken(html: string, tokens: seq<string>) {
    forall i :: 0 <= i < |tokens| ==> !Contains(html, tokens[i])
  }

  /** Layout html with none of the tokens comes through the substitution unchanged. */
  lemma {:induction false} ReplaceInOrderAbsent(html: string, tokens: seq<string>, reps: seq<string>)
    requires |tokens| == |reps| && forall i :: 0 <= i < |tokens| ==> tokens[i] != []
    requires HasNoToken(html, tokens)
    ensures ReplaceInOrder(html, tokens, reps) == html
    decreases |tokens|
  {
    if tokens != [] {
      ReplaceAllAbsent(html, tokens[0], reps[0]);
      assert HasNoToken(html, tokens[1..]) by {
        forall i | 0 <= i < |tokens[1..]|
          ensures !Contains(html, tokens[1..][i])
        {
          assert tokens[1..][i] == tokens[i + 1];
        }
      }
      ReplaceInOrderAbsent(html, tokens[1..], reps[1..]);
    }
  }

  /** A layout without template tokens keeps its text: only tokens are ever rewritten. */
  lemma SubstituteNoTokens(html: string, year: int)
    requires HasNoToken(html, Tokens)
    ensures SubstituteTokens(html, year) == html
  {
    ReplaceInOrderAbsent(html, Tokens, Replacements(year));
  }

  // ------------------------------------------------------ layouts with tokens

  /** No curly brace: text that can neither hold a token nor run into one. */
  predicate BraceFree(s: string) {
    forall i :: 0 <= i < |s| ==> s[i] != '{' && s[i] != '}'
  }

  /** `{{name}}` with a brace-free, non-empty name: the shape of every layout token. */
  predicate TokenShaped(p: string) {
    && |p| >= 5
    && p[0] == '{' && p[1] == '{' && p[|p| - 2] == '}' && p[|p| - 1] == '}'
    && forall i :: 2 <= i < |p| - 2 ==> p[i] != '{' && p[i] != '}'
  }

  /** A piece of a layout: brace-free text, or the slot of the token `Tokens[index]`. */
  datatype Piece = Text(text: string) | Slot(index: nat)

  predicate IsLayout(pieces: seq<Piece>) {
    forall i :: 0 <= i < |pieces| ==>
      (pieces[i].Text? ==> BraceFree(pieces[i].text)) && (pieces[i].Slot? ==> pieces[i].index < |Tokens|)
  }

  /** The layout with slot `k` filled by `fill[k]`. */
  function Fill(pieces: seq<Piece>, fill: seq<string>): string
    requires |fill| == |Tokens| && IsLayout(pieces)
  {
    if pieces == [] then []
    else
      (match pieces[0]
       case Text(s) => s
       case Slot(k) => fill[k])
      + Fill(pieces[1..], fill)
  }

  lemma TokensShaped()
    ensures forall i :: 0 <= i < |Tokens| ==> TokenShaped(Tokens[i])
    ensures forall i, j :: 0 <= i < j < |Tokens| ==> Tokens[i] != Tokens[j]
  {
    assert TokenShaped(Tokens[0]) && TokenShaped(Tokens[1]) && TokenShaped(Tokens[2]);
    assert TokenShaped(Tokens[3]) && TokenShaped(Tokens[4]) && TokenShaped(Tokens[5]);
  }

  lemma ReplacementsBraceFree(year: int)
    ensures forall i :: 0 <= i < |Tokens| ==> BraceFree(Replacements(year)[i])
  {
    var n := if year < 0 then -year else year;
    assert BraceFree(NatToString(n));
    assert BraceFree(IntToString(year)) by {
      if year < 0 {
        assert IntToString(year) == "-" + NatToString(n);
      }
    }
    assert BraceFree(NavLink) && BraceFree("Home</a>") && BraceFree("About</a>") && BraceFree("Posts</a>");
    BraceFreeConcat(NavLink, "Home</a>");
    BraceFreeConcat(NavLink + "Home</a>", NavLink);
    BraceFreeConcat(NavLink + "Home</a>" + NavLink, "About</a>");
    BraceFreeConcat(NavLink + "Home</a>" + NavLink + "About</a>", NavLink);
    BraceFreeConcat(NavLink + "Home</a>" + NavLink + "About</a>" + NavLink, "Posts</a>");
  }

  lemma BraceFreeConcat(a: string, b: string)
    requires BraceFree(a) && BraceFree(b)
    ensures BraceFree(a + b)
  {
  }

  /** No position of brace-free text starts a token. */
  lemma BraceFreeNoMatch(x: string, rest: string, pat: string)
    requires BraceFree(x) && TokenShaped(pat)
    ensures NoMatchBefore(x + rest, |x|, pat)
  {
    forall j | 0 <= j < |x| ensures !StartsWith((x + rest)[j..], pat) {
      assert (x + rest)[j..][0] == x[j];
    }
  }

  /** No position of one token starts a different token. */
  lemma TokenNoMatch(t: string, rest: string, pat: string)
    requires TokenShaped(t) && TokenShaped(pat) && t != pat
    ensures NoMatchBefore(t + rest, |t|, pat)
  {
    var s := t + rest;
    forall j | 0 <= j < |t| ensures !StartsWith(s[j..], pat) {
      var w := s[j..];
      if j >= 2 {
        assert w[0] == t[j] != pat[0];
      } else if j == 1 {
        assert w[1] == t[2] != pat[1];
      } else if |pat| == |t| {
        assert w[..|pat|] == t;
      } else if |pat| < |t| - 1 {
        assert w[|pat| - 1] == t[|pat| - 1] != pat[|pat| - 1];
      } else if |pat| == |t| - 1 {
        assert w[|pat| - 2] == t[|t| - 3] != pat[|pat| - 2];
      } else if |pat| <= |w| {
        assert w[|t| - 2] == t[|t| - 2] != pat[|t| - 2];
      }
    }
  }

  /**
   * One `replaceAll` over a layout whose slots hold brace-free text or distinct
   * tokens replaces exactly the slots that hold the pattern.
   */
  lemma {:induction false} ReplaceSlot(pieces: seq<Piece>, fill: seq<string>, m: nat, rep: string)
    requires |fill| == |Tokens| && IsLayout(pieces) && m < |Tokens|
    requires TokenShaped(fill[m])
    requires forall i :: 0 <= i < |fill| && i != m ==> BraceFree(fill[i]) || (TokenShaped(fill[i]) && fill[i] != fill[m])
    ensures ReplaceAll(Fill(pieces, fill), fill[m], rep) == Fill(pieces, fill[m := rep])
  {
    if pieces != [] {
      var pat := fill[m];
      var rest := Fill(pieces[1..], fill);
      assert IsLayout(pieces[1..]) by {
        forall i | 0 <= i < |pieces[1..]| ensures pieces[1..][i] == pieces[i + 1] { }
      }
      ReplaceSlot(pieces[1..], fill, m, rep);
      match pieces[0]
      case Text(s) =>
        BraceFreeNoMatch(s, rest, pat);
        ReplaceAllKeepsPrefix(s, rest, pat, rep);
      case Slot(k) =>
        if k == m {
          ReplaceAllAtMatch(pat, rest, rep);
        } else if BraceFree(fill[k]) {
          BraceFreeNoMatch(fill[k], rest, pat);
          ReplaceAllKeepsPrefix(fill[k], rest, pat, rep);
        } else {
          TokenNoMatch(fill[k], rest, pat);
          ReplaceAllKeepsPrefix(fill[k], rest, pat, rep);
        }
    }
  }

  /** The slots after `m` substitutions: the first `m` tokens replaced, the others still in place. */
  function Stage(m: nat, year: int): (fill: seq<string>)
    requires m <= |Tokens|
    ensures |fill| == |Tokens|
  {
    Replacements(year)[..m] + Tokens[m..]
  }

  lemma {:induction false} SubstituteFrom(pieces: seq<Piece>, m: nat, year: int)
    requires IsLayout(pieces) && m <= |Tokens|
    ensures ReplaceInOrder(Fill(pieces, Stage(m, year)), Tokens[m..], Replacements(year)[m..]) == Fill(pieces, Replacements(year))
    decreases |Tokens| - m
  {
    var reps := Replacements(year);
    if m == |Tokens| {
      assert Stage(m, year) == reps;
    } else {
      var fill := Stage(m, year);
      TokensShaped();
      ReplacementsBraceFree(year);
      assert fill[m] == Tokens[m];
      ReplaceSlot(pieces, fill, m, reps[m]);
      assert fill[m := reps[m]] == Stage(m + 1, year);
      assert Tokens[m..][1..] == Tokens[m + 1..] && reps[m..][1..] == reps[m + 1..];
      SubstituteFrom(pieces, m + 1, year);
    }
  }

  /**
   * A layout of brace-free text and tokens: the six `replaceAll` calls replace
   * every occurrence of every token by its placeholder and leave the text as it was.
   */
  lemma SubstituteLayout(pieces: seq<Piece>, year: int)
    requires IsLayout(pieces)
    ensures SubstituteTokens(Fill(pieces, Tokens), year) == Fill(pieces, Replacements(year))
  {
    assert Stage(0, year) == Tokens;
    SubstituteFrom(pieces, 0, year);
  }

  /** A string at none of whose positions the pattern starts is left as it is. */
  lemma NoMatchUnchanged(s: string, pat: string, rep: string)
    requires pat != [] && NoMatchBefore(s, |s|, pat)
    ensures ReplaceAll(s, pat, rep) == s
  {
    assert s + "" == s;
    ReplaceAllKeepsPrefix(s, "", pat, rep);
  }

  /** A layout with `{{nav}}` spelled around the `{{authLinksBlock}}` token. */
  const SplitNav := "{{n" + "{{authLinksBlock}}" + "av}}"

  /** The passes for `{{nav}}`, `{{siteTagline}}`, `{{homeHref}}` and `{{year}}` find nothing in it. */
  lemma SplitNavEarlyPasses(m: nat, rep: string)
    requires m < 4
    ensures ReplaceAll(SplitNav, Tokens[m], rep) == SplitNav
  {
    var tail := Tokens[4] + "av}}";
    var s := "{{n" + tail;
    var tok := Tokens[m];
    TokensShaped();
    TokenNoMatch(Tokens[4], "av}}", tok);
    forall j | 0 <= j < |s| ensures !StartsWith(s[j..], tok) {
      if j < 3 {
        assert s[j..][2 - j] == 'n' != tok[2 - j] || s[j..][3 - j] == '{' != tok[3 - j];
      } else if j < 21 {
        assert s[j..] == tail[j - 3..];
      }
    }
    assert SplitNav == s;
    NoMatchUnchanged(s, tok, rep);
  }

  /** The `{{authLinksBlock}}` pass removes the token and so puts `{{nav}}` together. */
  lemma SplitNavAuthPass()
    ensures ReplaceAll(SplitNav, Tokens[4], "") == "{{nav}}"
  {
    var x := "{{n" + (Tokens[4] + "av}}");
    forall j | 0 <= j < 3 ensures !StartsWith(x[j..], Tokens[4]) {
      assert x[j..][2 - j] == 'n' != Tokens[4][2 - j];
    }
    ReplaceAllKeepsPrefix("{{n", Tokens[4] + "av}}", Tokens[4], "");
    ReplaceAllAtMatch(Tokens[4], "av}}", "");
    NoMatchUnchanged("av}}", Tokens[4], "");
    assert SplitNav == x;
    assert "{{n" + ("" + "av}}") == "{{nav}}";
  }

  lemma ReplaceInOrderStep(html: string, m: nat, year: int)
    requires m < |Tokens|
    ensures ReplaceInOrder(html, Tokens[m..], Replacements(year)[m..])
      == ReplaceInOrder(ReplaceAll(html, Tokens[m], Replacements(year)[m]), Tokens[m + 1..], Replacements(year)[m + 1..])
  {
    assert Tokens[m..][1..] == Tokens[m + 1..];
    assert Replacements(year)[m..][1..] == Replacements(year)[m + 1..];
  }

  /**
   * The order of the passes is visible: a token spelled around `{{authLinksBlock}}`
   * is put together by the fifth pass, after the `{{nav}}` pass has run, and stays.
   */
  lemma SubstitutionOrderMatters(year: int)
    ensures SubstituteTokens(SplitNav, year) == "{{nav}}"
  {
    var reps := Replacements(year);
    assert Tokens[0..] == Tokens && reps[0..] == reps;
    ReplaceInOrderStep(SplitNav, 0, year);
    SplitNavEarlyPasses(0, reps[0]);
    ReplaceInOrderStep(SplitNav, 1, year);
    SplitNavEarlyPasses(1, reps[1]);
    ReplaceInOrderStep(SplitNav, 2, year);
    SplitNavEarlyPasses(2, reps[2]);
    ReplaceInOrderStep(SplitNav, 3, year);
    SplitNavEarlyPasses(3, reps[3]);
    ReplaceInOrderStep(SplitNav, 4, year);
    SplitNavAuthPass();
    ReplaceInOrderStep("{{nav}}", 5, year);
    assert ReplaceAll("{{nav}}", Tokens[5], "") == "{{nav}}";
  }

  /** The placeholder content always ends up in the body, whether it filled `{{content}}` or was appended. */
  lemma ContentAlwaysPresent(body: string)
    ensures Contains(ResolveBody(body), ContentHtml)
    ensures !Contains(body, ContentToken) ==> ResolveBody(body) == body + "\n" + ContentHtml
  {
    if Contains(body, ContentToken) {
      ReplaceAllPresent(body, ContentToken, ContentHtml);
    } else {
      ContainsSuffix(body + "\n", ContentHtml);
    }
  }

  lemma {:induction false} ContainsSuffix(a: string, b: string)
    ensures Contains(a + b, b)
    decreases |a|
  {
    if a == [] {
      assert (a + b)[..|b|] == b;
    } else {
      ContainsSuffix(a[1..], b);
      assert (a + b)[1..] == a[1..] + b;
    }
  }

  lemma Middle(a: string, b: string, c: string)
    ensures (a + b + c)[|a|..|a| + |b|] == b
  {
  }

  /** The css is inserted verbatim: it is read back from a fixed offset of the document. */
  lemma StyleVerbatim(html: string, css: string, js: string, year: int)
    ensures BuildPreviewHtml(html, css, js, year)[|DocHead|..|DocHead| + |css|] == css
  {
    var body := ResolveBody(SubstituteTokens(html, year));
    var rest := StyleToBody + body + BodyToScript + js + DocTail;
    assert BuildPreviewHtml(html, css, js, year) == DocHead + css + rest;
    Middle(DocHead, css, rest);
  }

  /** The js is inserted verbatim: it is read back from a fixed offset before the end of the document. */
  lemma ScriptVerbatim(html: string, css: string, js: string, year: int)
    ensures var doc := BuildPreviewHtml(html, css, js, year);
      doc[|doc| - |DocTail| - |js|..|doc| - |DocTail|] == js
  {
    var body := ResolveBody(SubstituteTokens(html, year));
    var front := DocHead + css + StyleToBody + body + BodyToScript;
    assert BuildPreviewHtml(html, css, js, year) == front + js + DocTail;
    Middle(front, js, DocTail);
  }

  /** With every pane missing, the preview is the empty layout with the content appended. */
  lemma NoEditorsPreview(year: int)
    ensures BuildPreviewFromEditors(None, None, None, year) == DocHead + StyleToBody + "\n" + ContentHtml + BodyToScript + DocTail
  {
    var body := ResolveBody(SubstituteTokens("", year));
    EmptyLayoutBody(year);
    assert BuildPreviewFromEditors(None, None, None, year) == DocHead + "" + StyleToBody + body + BodyToScript + "" + DocTail;
    EmptyPanes(DocHead, StyleToBody, "\n", ContentHtml, BodyToScript, DocTail);
  }

  /** An empty layout has no token to substitute, so only the appended content remains. */
  lemma EmptyLayoutBody(year: int)
    ensures ResolveBody(SubstituteTokens("", year)) == "\n" + ContentHtml
  {
    assert HasNoToken("", Tokens) by {
      forall i | 0 <= i < |Tokens| ensures !Contains("", Tokens[i]) {
        assert Tokens[i] != [];
      }
    }
    SubstituteNoTokens("", year);
    assert !Contains("", ContentToken);
    assert "" + "\n" + ContentHtml == "\n" + ContentHtml;
  }

  lemma EmptyPanes(head: string, style: string, nl: string, content: string, script: string, tail: string)
    ensures head + "" + style + (nl + content) + script + "" + tail == head + style + nl + content + script + tail
  {
  }
}
