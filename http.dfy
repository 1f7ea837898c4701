/**
 * The response helpers of src/shared/http.ts that make decisions: HTML escaping,
 * the headers and default statuses of `html`, `json` and `redirect`, and the
 * MIME type of a static file.
 */
module Http {
  import opened Wrappers
  import opened JsString

  // ------------------------------------------------------------------ escapeHtml

  /** `s.replace(/c/g, rep)` for a one-character pattern. */
  function ReplaceChar(s: string, c: char, rep: string): string {
    if s == [] then [] else (if s[0] == c then rep else [s[0]]) + ReplaceChar(s[1..], c, rep)
  }

  /** A global one-character regex replace is the literal `replaceAll` of that character. */
  lemma {:induction false} ReplaceCharIsReplaceAll(s: string, c: char, rep: string)
    ensures ReplaceChar(s, c, rep) == ReplaceAll(s, [c], rep)
  {
    if s != [] {
      ReplaceCharIsReplaceAll(s[1..], c, rep);
      assert s[..1] == [s[0]];
    }
  }

  lemma {:induction false} ReplaceCharAppend(a: string, b: string, c: char, rep: string)
    ensures ReplaceChar(a + b, c, rep) == ReplaceChar(a, c, rep) + ReplaceChar(b, c, rep)
  {
    if a != [] {
      assert (a + b)[0] == a[0];
      assert (a + b)[1..] == a[1..] + b;
      ReplaceCharAppend(a[1..], b, c, rep);
    } else {
      assert a + b == b;
    }
  }

  /** `escapeHtml`: `&` first, then `<`, `>` and `"`. */
  function EscapeHtml(s: string): string {
    ReplaceChar(ReplaceChar(ReplaceChar(ReplaceChar(s, '&', "&amp;"), '<', "&lt;"), '>', "&gt;"), '"', "&quot;")
  }

  /** The entity of one character; every other character, the single quote included, stands for itself. */
  function EscapeChar(c: char): string {
    if c == '&' then "&amp;"
    else if c == '<' then "&lt;"
    else if c == '>' then "&gt;"
    else if c == '"' then "&quot;"
    else [c]
  }

  /** The reference definition: each character escaped on its own. */
  function EscapeEach(s: string): string {
    if s == [] then [] else EscapeChar(s[0]) + EscapeEach(s[1..])
  }

  lemma {:induction false} ReplaceCharAbsent(s: string, c: char, rep: string)
    requires c !in s
    ensures ReplaceChar(s, c, rep) == s
  {
    if s != [] {
      ReplaceCharAbsent(s[1..], c, rep);
      assert s == [s[0]] + s[1..];
    }
  }

  lemma ReplaceCharOne(c: char, x: char, rep: string)
    ensures ReplaceChar([c], x, rep) == if c == x then rep else [c]
  {
    assert [c][1..] == [];
    assert (if c == x then rep else [c]) + [] == (if c == x then rep else [c]);
  }

  /** The last three steps of the chain leave a string without `<`, `>`, `"` alone. */
  lemma LaterStepsKeep(e: string)
    requires '<' !in e && '>' !in e && '"' !in e
    ensures ReplaceChar(ReplaceChar(ReplaceChar(e, '<', "&lt;"), '>', "&gt;"), '"', "&quot;") == e
  {
    ReplaceCharAbsent(e, '<', "&lt;");
    ReplaceCharAbsent(e, '>', "&gt;");
    ReplaceCharAbsent(e, '"', "&quot;");
  }

  lemma EscapeHtmlOneChar(c: char)
    ensures EscapeHtml([c]) == EscapeChar(c)
  {
    ReplaceCharOne(c, '&', "&amp;");
    if c == '&' {
      LaterStepsKeep("&amp;");
    } else {
      ReplaceCharOne(c, '<', "&lt;");
      if c == '<' {
        ReplaceCharAbsent("&lt;", '>', "&gt;");
        ReplaceCharAbsent("&lt;", '"', "&quot;");
      } else {
        ReplaceCharOne(c, '>', "&gt;");
        if c == '>' {
          ReplaceCharAbsent("&gt;", '"', "&quot;");
        } else {
          ReplaceCharOne(c, '"', "&quot;");
        }
      }
    }
  }

  /**
   * Because `&` is replaced first, no entity produced by a later step is escaped
   * again: the chain of replaces escapes every character exactly once.
   */
  lemma {:induction false} EscapeHtmlIsPerChar(s: string)
    ensures EscapeHtml(s) == EscapeEach(s)
  {
    if s != [] {
      EscapeHtmlIsPerChar(s[1..]);
      var head, tail := [s[0]], s[1..];
      assert s == head + tail;
      ReplaceCharAppend(head, tail, '&', "&amp;");
      var h1, t1 := ReplaceChar(head, '&', "&amp;"), ReplaceChar(tail, '&', "&amp;");
      ReplaceCharAppend(h1, t1, '<', "&lt;");
      var h2, t2 := ReplaceChar(h1, '<', "&lt;"), ReplaceChar(t1, '<', "&lt;");
      ReplaceCharAppend(h2, t2, '>', "&gt;");
      var h3, t3 := ReplaceChar(h2, '>', "&gt;"), ReplaceChar(t2, '>', "&gt;");
      ReplaceCharAppend(h3, t3, '"', "&quot;");
      EscapeHtmlOneChar(s[0]);
    }
  }

  /** A character that needs no escaping. */
  predicate IsPlainChar(c: char) {
    c != '&' && c != '<' && c != '>' && c != '"'
  }

  /** The output never contains `<`, `>` or `"`. */
  lemma {:induction false} EscapeHtmlNoMarkup(s: string)
    ensures forall i :: 0 <= i < |EscapeHtml(s)| ==> EscapeHtml(s)[i] != '<' && EscapeHtml(s)[i] != '>' && EscapeHtml(s)[i] != '"'
  {
    EscapeHtmlIsPerChar(s);
    EscapeEachNoMarkup(s);
  }

  lemma {:induction false} EscapeEachNoMarkup(s: string)
    ensures forall i :: 0 <= i < |EscapeEach(s)| ==> EscapeEach(s)[i] != '<' && EscapeEach(s)[i] != '>' && EscapeEach(s)[i] != '"'
  {
    if s != [] {
      EscapeEachNoMarkup(s[1..]);
      var e := EscapeChar(s[0]);
      assert forall i :: 0 <= i < |e| ==> e[i] != '<' && e[i] != '>' && e[i] != '"';
    }
  }

  /** The four entities `escapeHtml` produces. */
  predicate StartsWithEntity(s: string) {
    StartsWith(s, "&amp;") || StartsWith(s, "&lt;") || StartsWith(s, "&gt;") || StartsWith(s, "&quot;")
  }

  /** Every `&` in the output begins one of the four entities. */
  lemma {:induction false} EscapeEachAmpersands(s: string)
    ensures forall i :: 0 <= i < |EscapeEach(s)| && EscapeEach(s)[i] == '&' ==> StartsWithEntity(EscapeEach(s)[i..])
  {
    if s != [] {
      EscapeEachAmpersands(s[1..]);
      var e := EscapeChar(s[0]);
      var rest := EscapeEach(s[1..]);
      var r := e + rest;
      forall i | 0 <= i < |r| && r[i] == '&' ensures StartsWithEntity(r[i..]) {
        if i < |e| {
          assert i == 0;
          assert r[i..] == e + rest;
        } else {
          assert r[i..] == rest[i - |e|..];
        }
      }
    }
  }

  lemma EscapeHtmlAmpersands(s: string)
    ensures forall i :: 0 <= i < |EscapeHtml(s)| && EscapeHtml(s)[i] == '&' ==> StartsWithEntity(EscapeHtml(s)[i..])
  {
    EscapeHtmlIsPerChar(s);
    EscapeEachAmpersands(s);
  }

  /** A decoder for the four entities, reading left to right. */
  function Unescape(s: string): string
    decreases |s|
  {
    if s == [] then []
    else if StartsWith(s, "&amp;") then "&" + Unescape(s[5..])
    else if StartsWith(s, "&lt;") then "<" + Unescape(s[4..])
    else if StartsWith(s, "&gt;") then ">" + Unescape(s[4..])
    else if StartsWith(s, "&quot;") then "\"" + Unescape(s[6..])
    else [s[0]] + Unescape(s[1..])
  }

  /** Escaping loses nothing: decoding the output gives back the input. */
  lemma {:induction false} UnescapeEscapeHtml(s: string)
    ensures Unescape(EscapeHtml(s)) == s
  {
    EscapeHtmlIsPerChar(s);
    UnescapeEscapeEach(s);
  }

  lemma {:induction false} UnescapeEscapeEach(s: string)
    ensures Unescape(EscapeEach(s)) == s
  {
    if s != [] {
      UnescapeEscapeEach(s[1..]);
      UnescapeOne(s[0], EscapeEach(s[1..]));
      assert s == [s[0]] + s[1..];
    }
  }

  lemma UnescapeOne(c: char, rest: string)
    ensures Unescape(EscapeChar(c) + rest) == [c] + Unescape(rest)
  {
    if c == '&' {
      UnescapeEntity("&amp;", '&', rest);
    } else if c == '<' {
      UnescapeEntity("&lt;", '<', rest);
    } else if c == '>' {
      UnescapeEntity("&gt;", '>', rest);
    } else if c == '"' {
      UnescapeEntity("&quot;", '"', rest);
    } else {
      var r := [c] + rest;
      assert r[0] == c && c != '&';
      assert !StartsWith(r, "&amp;") && !StartsWith(r, "&lt;") && !StartsWith(r, "&gt;") && !StartsWith(r, "&quot;");
      assert r[1..] == rest;
    }
  }

  lemma UnescapeEntity(entity: string, c: char, rest: string)
    requires (entity, c) in {("&amp;", '&'), ("&lt;", '<'), ("&gt;", '>'), ("&quot;", '"')}
    ensures Unescape(entity + rest) == [c] + Unescape(rest)
  {
    var r := entity + rest;
    assert r[..|entity|] == entity && r[|entity|..] == rest;
    assert r[1] == entity[1];
  }

  /** A string with none of `&`, `<`, `>`, `"` is returned unchanged; single quotes are never escaped. */
  lemma {:induction false} EscapeHtmlPlain(s: string)
    requires forall i :: 0 <= i < |s| ==> IsPlainChar(s[i])
    ensures EscapeHtml(s) == s
    ensures EscapeHtml("'") == "'"
  {
    EscapeHtmlIsPerChar(s);
    EscapeEachPlain(s);
    EscapeHtmlOneChar('\'');
  }

  lemma {:induction false} EscapeEachPlain(s: string)
    requires forall i :: 0 <= i < |s| ==> IsPlainChar(s[i])
    ensures EscapeEach(s) == s
  {
    if s != [] {
      EscapeEachPlain(s[1..]);
      assert s == [s[0]] + s[1..];
    }
  }

  // ------------------------------------------------------------------ responses

  /** A response as the helpers write it: status, headers and a body of the caller's choice. */
  datatype Response<T> = Response(status: nat, headers: map<string, string>, body: T)

  /** `html(res, body, status = 200, options)`. */
  function Html<T>(body: T, status: Option<nat>, noAiTraining: bool): (r: Response<T>)
    ensures r.status == status.GetOr(200) && r.body == body
    ensures r.headers.Keys == if noAiTraining then {"Content-Type", "X-Robots-Tag"} else {"Content-Type"}
    ensures r.headers["Content-Type"] == "text/html; charset=utf-8"
    ensures noAiTraining ==> r.headers["X-Robots-Tag"] == "noai, noimageai"
  {
    var headers := map["Content-Type" := "text/html; charset=utf-8"];
    Response(status.GetOr(200), if noAiTraining then headers["X-Robots-Tag" := "noai, noimageai"] else headers, body)
  }

  /** `json(res, data, status = 200)`. */
  function Json<T>(data: T, status: Option<nat>): (r: Response<T>)
    ensures r.status == status.GetOr(200) && r.body == data
    ensures r.headers == map["Content-Type" := "application/json; charset=utf-8"]
  {
    Response(status.GetOr(200), map["Content-Type" := "application/json; charset=utf-8"], data)
  }

  /** `redirect(res, location, status = 302)`: an empty body and only a `Location` header. */
  function Redirect(location: string, status: Option<nat>): (r: Response<()>)
    ensures r.status == status.GetOr(302)
    ensures r.headers == map["Location" := location]
  {
    Response(status.GetOr(302), map["Location" := location], ())
  }

  /** The MIME table of `serveStatic`, keyed by extension with its dot. */
  const MimeTable: map<string, string> := map[
    ".html" := "text/html; charset=utf-8",
    ".css" := "text/css; charset=utf-8",
    ".js" := "application/javascript; charset=utf-8",
    ".mjs" := "application/javascript; charset=utf-8",
    ".json" := "application/json; charset=utf-8",
    ".wasm" := "application/wasm",
    ".png" := "image/png",
    ".jpg" := "image/jpeg",
    ".svg" := "image/svg+xml",
    ".ico" := "image/x-icon",
    ".woff" := "font/woff",
    ".woff2" := "font/woff2"
  ]

  /** `MIME[ext] || "application/octet-stream"`. */
  function MimeType(ext: string): (r: string)
    ensures ext in MimeTable ==> r == MimeTable[ext]
    ensures ext !in MimeTable ==> r == "application/octet-stream"
    ensures r != ""
  {
    if ext in MimeTable && MimeTable[ext] != "" then MimeTable[ext] else "application/octet-stream"
  }
}
