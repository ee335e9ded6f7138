/** The worker's string helpers: the phone-number digit filter, the file name
    taken from a media URL, and the `{{ key }}` template substitution. Regular
    expression classes are ASCII: `\d` is 0-9, `\w` is [A-Za-z0-9_] and `\s`
    is the space, tab, line feed, vertical tab, form feed and carriage return. */
module Text {
  import opened Js

  predicate IsDigit(c: char) { '0' <= c <= '9' }

  predicate IsWordChar(c: char) { 'a' <= c <= 'z' || 'A' <= c <= 'Z' || IsDigit(c) || c == '_' }

  predicate IsSpace(c: char) { c == ' ' || '\t' <= c <= '\r' }

  // ---------------------------------------------------------------------------
  // Phone numbers: `String(contact).replace(/[^\d]/g, '')`
  // ---------------------------------------------------------------------------

  /** The digits of s, in order; every other character is dropped. */
  function DigitsOnly(s: string): (r: string)
    ensures |r| <= |s|
    ensures forall i :: 0 <= i < |r| ==> IsDigit(r[i])
    decreases |s|
  {
    if s == [] then []
    else (if IsDigit(s[0]) then [s[0]] else []) + DigitsOnly(s[1..])
  }

  /** Filtering works character by character, so it distributes over concatenation. */
  lemma {:induction false} DigitsOnlyAppend(a: string, b: string)
    ensures DigitsOnly(a + b) == DigitsOnly(a) + DigitsOnly(b)
    decreases |a|
  {
    if a == [] {
      assert a + b == b;
    } else {
      assert (a + b)[0] == a[0];
      assert (a + b)[1..] == a[1..] + b;
      DigitsOnlyAppend(a[1..], b);
    }
  }

  /** A number that is already only digits is kept as it is. */
  lemma {:induction false} DigitsOnlyKeepsDigits(s: string)
    requires forall i :: 0 <= i < |s| ==> IsDigit(s[i])
    ensures DigitsOnly(s) == s
    decreases |s|
  {
    if s != [] {
      DigitsOnlyKeepsDigits(s[1..]);
    }
  }

  /** A string with no digit at all normalises to the empty number. */
  lemma {:induction false} DigitsOnlyDropsAll(s: string)
    requires forall i :: 0 <= i < |s| ==> !IsDigit(s[i])
    ensures DigitsOnly(s) == ""
    decreases |s|
  {
    if s != [] {
      DigitsOnlyDropsAll(s[1..]);
    }
  }

  lemma DigitsOnlyIdempotent(s: string)
    ensures DigitsOnly(DigitsOnly(s)) == DigitsOnly(s)
  {
    DigitsOnlyKeepsDigits(DigitsOnly(s));
  }

  // ---------------------------------------------------------------------------
  // File names: `u.split('?')[0].split('/').pop() || fallback`
  // ---------------------------------------------------------------------------

  /** `s.split(c)[0]`: the longest prefix of s without c. */
  function BeforeFirst(s: string, c: char): (r: string)
    ensures r <= s && c !in r
    ensures |r| < |s| ==> s[|r|] == c
    decreases |s|
  {
    if s == [] || s[0] == c then [] else [s[0]] + BeforeFirst(s[1..], c)
  }

  /** `s.split(c).pop()`: the longest suffix of s without c. */
  function AfterLast(s: string, c: char): (r: string)
    ensures |r| <= |s| && r == s[|s| - |r|..]
    ensures c !in r
    ensures |r| < |s| ==> s[|s| - |r| - 1] == c
    decreases |s|
  {
    if s == [] || s[|s| - 1] == c then [] else AfterLast(s[..|s| - 1], c) + [s[|s| - 1]]
  }

  /** The last path segment of URL u, query string removed; `fallback` when
      that segment is empty or when u is not a string (calling `split` on it
      throws, and the throw is caught). */
  function FilenameFromUrl(u: JsValue, fallback: string): (r: string)
    ensures !u.Str? ==> r == fallback
    ensures r == fallback || (r != "" && '/' !in r && '?' !in r)
  {
    match u
    case Str(s) =>
      var last := AfterLast(BeforeFirst(s, '?'), '/');
      if last == "" then fallback else last
    case _ => fallback
  }

  lemma {:induction false} BeforeFirstSplit(x: string, y: string, c: char)
    requires c !in x
    requires y == [] || y[0] == c
    ensures BeforeFirst(x + y, c) == x
    decreases |x|
  {
    if x == [] {
      assert x + y == y;
    } else {
      assert (x + y)[0] == x[0];
      assert (x + y)[1..] == x[1..] + y;
      BeforeFirstSplit(x[1..], y, c);
    }
  }

  lemma {:induction false} AfterLastSplit(x: string, c: char, seg: string)
    requires c !in seg
    ensures AfterLast(x + [c] + seg, c) == seg
    decreases |seg|
  {
    if seg != [] {
      var init := seg[..|seg| - 1];
      SplitInit(x, c, seg);
      AfterLastSplit(x, c, init);
    }
  }

  /** The facts about the last character that the step of AfterLastSplit uses,
      proved apart so that the step itself only chains them. */
  lemma SplitInit(x: string, c: char, seg: string)
    requires seg != []
    ensures (x + [c] + seg)[..|x + [c] + seg| - 1] == x + [c] + seg[..|seg| - 1]
    ensures (x + [c] + seg)[|x + [c] + seg| - 1] == seg[|seg| - 1]
    ensures seg[..|seg| - 1] + [seg[|seg| - 1]] == seg
    ensures seg[|seg| - 1] in seg && forall d :: d in seg[..|seg| - 1] ==> d in seg
  {
  }

  lemma {:induction false} AfterLastAbsent(s: string, c: char)
    requires c !in s
    ensures AfterLast(s, c) == s
    decreases |s|
  {
    if s != [] {
      InitAndLast(s, c);
      AfterLastAbsent(s[..|s| - 1], c);
    }
  }

  /** A non-empty string is its init followed by its last character; a proof
      helper that keeps these slice facts out of the AfterLast unfolding. */
  lemma InitAndLast(s: string, c: char)
    requires s != [] && c !in s
    ensures s[|s| - 1] != c && c !in s[..|s| - 1]
    ensures s[..|s| - 1] + [s[|s| - 1]] == s
  {
    assert s[|s| - 1] in s;
  }

  /** The name is the text after the last '/' of the part before the query
      string; a URL whose path ends in '/' gives the fallback. */
  lemma FilenameIsLastSegment(dir: string, seg: string, query: string, fallback: string)
    requires '?' !in dir && '?' !in seg && '/' !in seg
    requires query == [] || query[0] == '?'
    ensures FilenameFromUrl(Str(dir + "/" + seg + query), fallback) == if seg == "" then fallback else seg
  {
    var path := dir + "/" + seg;
    assert '?' !in path by {
      assert forall i :: 0 <= i < |path| ==> path[i] == (if i < |dir| then dir[i] else if i == |dir| then '/' else seg[i - |dir| - 1]);
    }
    BeforeFirstSplit(path, query, '?');
    AfterLastSplit(dir, '/', seg);
  }

  /** A bare name without any '/' is its own file name. */
  lemma FilenameOfBareName(name: string, query: string, fallback: string)
    requires '?' !in name && '/' !in name
    requires query == [] || query[0] == '?'
    ensures FilenameFromUrl(Str(name + query), fallback) == if name == "" then fallback else name
  {
    BeforeFirstSplit(name, query, '?');
    AfterLastAbsent(name, '/');
  }

  // ---------------------------------------------------------------------------
  // Templates: `text.replace(/{{\s*(\w+)\s*}}/g, (_, key) => contactData[key] ?? '')`
  // ---------------------------------------------------------------------------

  /** A placeholder matched at the start of a string: how many characters it
      spans and the key it names. */
  datatype Token = Token(len: nat, key: string)

  predicate AllSpaces(w: string) { forall i :: 0 <= i < |w| ==> IsSpace(w[i]) }

  predicate IsWord(w: string) { w != [] && forall i :: 0 <= i < |w| ==> IsWordChar(w[i]) }

  /** End of the run of spaces that starts at i. */
  function SpacesEnd(s: string, i: nat): (j: nat)
    requires i <= |s|
    ensures i <= j <= |s|
    decreases |s| - i
  {
    if i < |s| && IsSpace(s[i]) then SpacesEnd(s, i + 1) else i
  }

  /** End of the run of word characters that starts at i. */
  function WordEnd(s: string, i: nat): (j: nat)
    requires i <= |s|
    ensures i <= j <= |s|
    decreases |s| - i
  {
    if i < |s| && IsWordChar(s[i]) then WordEnd(s, i + 1) else i
  }

  /** The match of `{{\s*(\w+)\s*}}` anchored at the start of s. Spaces, word
      characters and '}' are disjoint classes, so the greedy runs taken here
      are the only way the pattern can match. */
  function TokenAt(s: string): (r: Option<Token>)
    ensures r.Some? ==> 5 <= r.value.len <= |s|
  {
    if |s| < 2 || s[0] != '{' || s[1] != '{' then None
    else
      var j := SpacesEnd(s, 2);
      var k := WordEnd(s, j);
      var m := SpacesEnd(s, k);
      if j < k && m + 2 <= |s| && s[m] == '}' && s[m + 1] == '}' then Some(Token(m + 2, s[j..k]))
      else None
  }

  /** `contactData[key] ?? ''`: a missing key and a null value both give ''. */
  function Lookup(vars: map<string, Option<string>>, key: string): string {
    if key in vars && vars[key].Some? then vars[key].value else ""
  }

  /** One left-to-right pass: a placeholder is replaced and scanning resumes
      after it; any other character is copied. */
  function Render(s: string, vars: map<string, Option<string>>): string
    decreases |s|
  {
    if s == [] then []
    else
      match TokenAt(s)
      case Some(t) => Lookup(vars, t.key) + Render(s[t.len..], vars)
      case None => [s[0]] + Render(s[1..], vars)
  }

  const ReplaceNotAFunction := "text.replace is not a function"

  /** `renderTemplate(text, contactData)`: falsy text gives ''; a string is
      rendered; any other truthy value has no `replace` method, so the call throws. */
  function RenderTemplate(text: JsValue, vars: map<string, Option<string>>): (r: Result<string>)
    ensures !Truthy(text) ==> r == Ok("")
    ensures text.Str? && text.s != "" ==> r == Ok(Render(text.s, vars))
    ensures r.Err? <==> Truthy(text) && !text.Str?
    ensures r.Err? ==> r.message != ""
  {
    if !Truthy(text) then Ok("")
    else if text.Str? then Ok(Render(text.s, vars))
    else Err(ReplaceNotAFunction)
  }

  /** Text in which no placeholder starts anywhere comes back unchanged. */
  lemma {:induction false} RenderWithoutTokens(s: string, vars: map<string, Option<string>>)
    requires forall i :: 0 <= i < |s| ==> TokenAt(s[i..]).None?
    ensures Render(s, vars) == s
    decreases |s|
  {
    if s != [] {
      assert s[0..] == s;
      forall i | 0 <= i < |s[1..]|
        ensures TokenAt(s[1..][i..]).None?
      {
        assert s[1..][i..] == s[i + 1..];
      }
      RenderWithoutTokens(s[1..], vars);
    }
  }

  /** Text with no opening brace is copied as it is, whatever follows it. */
  lemma {:induction false} RenderPlainPrefix(a: string, b: string, vars: map<string, Option<string>>)
    requires '{' !in a
    ensures Render(a + b, vars) == a + Render(b, vars)
    decreases |a|
  {
    if a == [] {
      assert a + b == b;
    } else {
      var s := a + b;
      assert s[0] == a[0] && s[1..] == a[1..] + b;
      assert TokenAt(s).None?;
      RenderCopies(s, vars);
      RenderPlainPrefix(a[1..], b, vars);
      assert [a[0]] + (a[1..] + Render(b, vars)) == ([a[0]] + a[1..]) + Render(b, vars);
      assert [a[0]] + a[1..] == a;
    }
  }

  /** Render's two steps, one lemma each. */
  lemma RenderCopies(s: string, vars: map<string, Option<string>>)
    requires s != [] && TokenAt(s).None?
    ensures Render(s, vars) == [s[0]] + Render(s[1..], vars)
  {
  }

  lemma RenderReplaces(s: string, t: Token, vars: map<string, Option<string>>)
    requires TokenAt(s) == Some(t)
    ensures Render(s, vars) == Lookup(vars, t.key) + Render(s[t.len..], vars)
  {
  }

  /** No placeholder starts at any of the first p positions of s. */
  predicate NoTokenBefore(s: string, p: nat)
    decreases p
  {
    p == 0 || (s != [] && TokenAt(s).None? && NoTokenBefore(s[1..], p - 1))
  }

  lemma {:induction false} NoTokenBeforeFromAll(s: string, p: nat)
    requires p <= |s|
    requires forall i {:trigger TokenAt(s[i..])} :: 0 <= i < p ==> TokenAt(s[i..]).None?
    ensures NoTokenBefore(s, p)
    decreases p
  {
    if p > 0 {
      assert s[0..] == s;
      forall i {:trigger TokenAt(s[1..][i..])} | 0 <= i < p - 1
        ensures TokenAt(s[1..][i..]).None?
      {
        assert s[1..][i..] == s[i + 1..];
      }
      NoTokenBeforeFromAll(s[1..], p - 1);
    }
  }

  /** Everything before the first placeholder is copied, the placeholder
      becomes its value, and rendering resumes after it. */
  lemma RenderAtFirstToken(s: string, p: nat, t: Token, vars: map<string, Option<string>>)
    requires p < |s|
    requires forall i {:trigger TokenAt(s[i..])} :: 0 <= i < p ==> TokenAt(s[i..]).None?
    requires TokenAt(s[p..]) == Some(t)
    ensures p + t.len <= |s|
    ensures Render(s, vars) == s[..p] + Lookup(vars, t.key) + Render(s[p + t.len..], vars)
  {
    NoTokenBeforeFromAll(s, p);
    RenderCopiesPrefix(s, p, vars);
    RenderReplaces(s[p..], t, vars);
    assert s[p..][t.len..] == s[p + t.len..];
    AppendAssoc(s[..p], Lookup(vars, t.key), Render(s[p + t.len..], vars));
  }

  /** The first p characters, where no placeholder starts, are copied as they are. */
  lemma {:induction false} RenderCopiesPrefix(s: string, p: nat, vars: map<string, Option<string>>)
    requires p <= |s| && NoTokenBefore(s, p)
    ensures Render(s, vars) == s[..p] + Render(s[p..], vars)
    decreases p
  {
    if p == 0 {
      assert s[..0] == [] && s[0..] == s;
    } else {
      TailSlices(s, p);
      RenderCopiesPrefix(s[1..], p - 1, vars);
      RenderCopies(s, vars);
      ConsAppend(s[0], s[1..][..p - 1], Render(s[p..], vars));
    }
  }

  /** A proof helper, kept apart so that the Render proofs stay fast: associativity. */
  lemma AppendAssoc(a: string, b: string, c: string)
    ensures a + (b + c) == a + b + c
  {
  }

  /** A proof helper, kept apart so that the Render proofs stay fast: associativity after one character. */
  lemma ConsAppend(x: char, a: string, b: string)
    ensures [x] + (a + b) == ([x] + a) + b
  {
  }

  /** The slices of s[1..] that the step from s to its tail relates; a proof
      helper that keeps slice facts out of the Render unfoldings. */
  lemma TailSlices(s: string, p: nat)
    requires 0 < p <= |s|
    ensures s[1..][p - 1..] == s[p..]
    ensures [s[0]] + s[1..][..p - 1] == s[..p]
  {
  }

  lemma {:induction false} SpacesEndAt(s: string, i: nat, j: nat)
    requires i <= j <= |s|
    requires forall k :: i <= k < j ==> IsSpace(s[k])
    requires j < |s| ==> !IsSpace(s[j])
    ensures SpacesEnd(s, i) == j
    decreases j - i
  {
    if i < j {
      SpacesEndAt(s, i + 1, j);
    }
  }

  lemma {:induction false} WordEndAt(s: string, i: nat, j: nat)
    requires i <= j <= |s|
    requires forall k :: i <= k < j ==> IsWordChar(s[k])
    requires j < |s| ==> !IsWordChar(s[j])
    ensures WordEnd(s, i) == j
    decreases j - i
  {
    if i < j {
      WordEndAt(s, i + 1, j);
    }
  }

  lemma {:induction false} SpacesEndIsRun(s: string, i: nat)
    requires i <= |s|
    ensures forall k :: i <= k < SpacesEnd(s, i) ==> IsSpace(s[k])
    ensures SpacesEnd(s, i) < |s| ==> !IsSpace(s[SpacesEnd(s, i)])
    decreases |s| - i
  {
    if i < |s| && IsSpace(s[i]) {
      SpacesEndIsRun(s, i + 1);
    }
  }

  lemma {:induction false} WordEndIsRun(s: string, i: nat)
    requires i <= |s|
    ensures forall k :: i <= k < WordEnd(s, i) ==> IsWordChar(s[k])
    ensures WordEnd(s, i) < |s| ==> !IsWordChar(s[WordEnd(s, i)])
    decreases |s| - i
  {
    if i < |s| && IsWordChar(s[i]) {
      WordEndIsRun(s, i + 1);
    }
  }

  /** Every match has the shape of a placeholder: two opening braces, optional
      spaces, a non-empty word (the key), optional spaces, two closing braces. */
  lemma TokenAtIsPlaceholder(s: string) returns (pre: string, post: string)
    requires TokenAt(s).Some?
    ensures AllSpaces(pre) && IsWord(TokenAt(s).value.key) && AllSpaces(post)
    ensures s[..TokenAt(s).value.len] == "{{" + pre + TokenAt(s).value.key + post + "}}"
  {
    var j := SpacesEnd(s, 2);
    var k := WordEnd(s, j);
    var m := SpacesEnd(s, k);
    SpacesEndIsRun(s, 2);
    WordEndIsRun(s, j);
    SpacesEndIsRun(s, k);
    pre, post := s[2..j], s[k..m];
    BracedSlices(s, j, k, m);
  }

  /** A prefix of s that opens and closes with two braces, cut at j, k and m;
      a proof helper that keeps slice facts away from TokenAt. */
  lemma BracedSlices(s: string, j: nat, k: nat, m: nat)
    requires 2 <= j <= k <= m && m + 2 <= |s|
    requires s[0] == '{' && s[1] == '{' && s[m] == '}' && s[m + 1] == '}'
    ensures s[..m + 2] == "{{" + s[2..j] + s[j..k] + s[k..m] + "}}"
  {
    assert s[..2] == "{{" && s[m..m + 2] == "}}";
    assert s[..j] == s[..2] + s[2..j];
    assert s[..k] == s[..j] + s[j..k];
    assert s[..m] == s[..k] + s[k..m];
    assert s[..m + 2] == s[..m] + s[m..m + 2];
  }

  /** `{{key}}`, with any spaces inside the braces, is matched as one placeholder naming key. */
  lemma PlaceholderMatches(pre: string, key: string, post: string, rest: string)
    requires AllSpaces(pre) && IsWord(key) && AllSpaces(post)
    ensures TokenAt("{{" + pre + key + post + "}}" + rest) == Some(Token(|pre| + |key| + |post| + 4, key))
  {
    var s := "{{" + pre + key + post + "}}" + rest;
    var j, k, m := 2 + |pre|, 2 + |pre| + |key|, 2 + |pre| + |key| + |post|;
    assert s[..2] == "{{";
    assert s[2..j] == pre;
    assert s[j..k] == key;
    assert s[k..m] == post;
    assert s[m] == '}' && s[m + 1] == '}';
    forall i | 2 <= i < j ensures IsSpace(s[i]) { assert s[i] == pre[i - 2]; }
    assert !IsSpace(s[j]) by { assert s[j] == key[0]; }
    SpacesEndAt(s, 2, j);
    forall i | j <= i < k ensures IsWordChar(s[i]) { assert s[i] == key[i - j]; }
    assert !IsWordChar(s[k]) by {
      if post != [] { assert s[k] == post[0]; } else { assert s[k] == '}'; }
    }
    WordEndAt(s, j, k);
    forall i | k <= i < m ensures IsSpace(s[i]) { assert s[i] == post[i - k]; }
    SpacesEndAt(s, k, m);
  }

  /** A placeholder at the head of the text becomes its value, and the value
      itself is not scanned again: it is placed before the rendering of the rest. */
  lemma RenderPlaceholder(pre: string, key: string, post: string, rest: string, vars: map<string, Option<string>>)
    requires AllSpaces(pre) && IsWord(key) && AllSpaces(post)
    ensures Render("{{" + pre + key + post + "}}" + rest, vars) == Lookup(vars, key) + Render(rest, vars)
  {
    var s := "{{" + pre + key + post + "}}" + rest;
    var t := Token(|pre| + |key| + |post| + 4, key);
    PlaceholderMatches(pre, key, post, rest);
    PlaceholderLength(pre, key, post, rest);
    RenderReplaces(s, t, vars);
  }

  /** A proof helper, kept apart so that the Render proofs stay fast: what follows a placeholder. */
  lemma PlaceholderLength(pre: string, key: string, post: string, rest: string)
    ensures ("{{" + pre + key + post + "}}" + rest)[|pre| + |key| + |post| + 4..] == rest
  {
  }

  /** `{{key}}` is the placeholder with no spaces around its name. */
  lemma RenderBarePlaceholder(key: string, rest: string, vars: map<string, Option<string>>)
    requires IsWord(key)
    ensures Render("{{" + key + "}}" + rest, vars) == Lookup(vars, key) + Render(rest, vars)
  {
    RenderPlaceholder("", key, "", rest, vars);
    BarePlaceholderText(key, rest);
  }

  /** A proof helper, kept apart so that the Render proofs stay fast: a placeholder with no spaces. */
  lemma BarePlaceholderText(key: string, rest: string)
    ensures "{{" + "" + key + "" + "}}" + rest == "{{" + key + "}}" + rest
  {
  }

  /** A proof helper, kept apart so that the Render proofs stay fast: appending nothing. */
  lemma AppendEmpty(a: string)
    ensures a + "" == a
  {
  }

  /** A value that looks like a placeholder is inserted literally. */
  lemma SubstitutedValueIsNotRescanned()
    ensures Render("{{nome}}", map["nome" := Some("{{email}}"), "email" := Some("ana@example.com")]) == "{{email}}"
  {
    var vars := map["nome" := Some("{{email}}"), "email" := Some("ana@example.com")];
    ExampleKeys();
    RenderBarePlaceholder("nome", "", vars);
    AppendEmpty("{{email}}");
  }

  /** Plain text followed by one placeholder renders to the text followed by the value. */
  lemma RenderTextThenPlaceholder(a: string, key: string, vars: map<string, Option<string>>)
    requires '{' !in a && IsWord(key)
    ensures Render(a + ("{{" + key + "}}"), vars) == a + Lookup(vars, key)
  {
    RenderPlainPrefix(a, "{{" + key + "}}", vars);
    RenderBarePlaceholder(key, "", vars);
    AppendEmpty("{{" + key + "}}");
    AppendEmpty(Lookup(vars, key));
  }

  /** The literal facts the examples below rest on, proved apart so that the
      examples do not reason about string literals beside Render. */
  lemma ExampleKeys()
    ensures IsWord("nome") && IsWord("x")
    ensures "{{" + "nome" + "}}" + "" == "{{nome}}" && "{{" + "x" + "}}" + "" == "{{x}}"
    ensures '{' !in "Hello " && "Hello " + ("{{" + "nome" + "}}") == "Hello {{nome}}"
    ensures "Hello " + "Ana" == "Hello Ana" && "" + "" == ""
  {
  }

  lemma GreetingExample()
    ensures Render("Hello {{nome}}", map["nome" := Some("Ana")]) == "Hello Ana"
  {
    ExampleKeys();
    RenderTextThenPlaceholder("Hello ", "nome", map["nome" := Some("Ana")]);
  }

  lemma MissingKeyExample()
    ensures Render("{{x}}", map[]) == ""
  {
    ExampleKeys();
    RenderBarePlaceholder("x", "", map[]);
  }
}
