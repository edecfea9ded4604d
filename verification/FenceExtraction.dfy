/**
 The LLM planner cuts a JSON block out of a chat completion: the text of the first ```json fence,
 or else of the first plain fence, trimmed.
 */
module FenceExtraction {
  import opened Strings

  const JSON_FENCE := "```json"
  const FENCE := "```"

  /** The text handed to `json.loads`; None when the content has no fence. */
  function ExtractJson(content: string): (json: Option<string>)
  {
    if Contains(content, JSON_FENCE) then
      SplitHead(content, JSON_FENCE);
      Some(Strip(Split(Split(content, JSON_FENCE)[1], FENCE)[0]))
    else if Contains(content, FENCE) then
      SplitHead(content, FENCE);
      Some(Strip(Split(Split(content, FENCE)[1], FENCE)[0]))
    else None
  }

  /** A text that holds the separator splits into at least two pieces, the first up to its first occurrence. */
  lemma SplitHead(s: string, sep: string)
    requires sep != [] && Contains(s, sep)
    ensures |Split(s, sep)| >= 2
  {
  }

  /** The body ends where the first fence after it begins. */
  predicate ClosesAtEnd(body: string) {
    !Contains(body, FENCE) && (body == [] || body[|body| - 1] != '`')
  }

  lemma FenceMatch(s: string, i: nat)
    ensures MatchesAt(s, i, FENCE) <==> i + 3 <= |s| && s[i] == '`' && s[i + 1] == '`' && s[i + 2] == '`'
  {
  }

  /** The first fence of `body + "```" + post` stands behind the body exactly when the body closes at its end. */
  lemma FirstFence(body: string, post: string)
    ensures ClosesAtEnd(body) <==> IndexOf(body + FENCE + post, FENCE) == Some(|body|)
  {
    var s := body + FENCE + post;
    assert s[|body|] == '`' && s[|body| + 1] == '`' && s[|body| + 2] == '`';
    FenceMatch(s, |body|);
    if ClosesAtEnd(body) {
      forall j: nat | j < |body|
        ensures !MatchesAt(s, j, FENCE)
      {
        FenceMatch(s, j);
        FenceMatch(body, j);
        assert s[j] == body[j] && s[|body| - 1] == body[|body| - 1];
      }
      IndexOfIs(s, FENCE, |body|);
    } else if Contains(body, FENCE) {
      var j: nat :| j <= |body| && MatchesAt(body, j, FENCE);
      FenceMatch(body, j);
      FenceMatch(s, j);
    } else {
      FenceMatch(s, |body| - 1);
    }
  }

  lemma JsonMatch(s: string, i: nat)
    ensures MatchesAt(s, i, JSON_FENCE) ==>
      i + 7 <= |s| && s[i] == '`' && s[i + 1] == '`' && s[i + 2] == '`' && s[i + 3] == 'j' && s[i + 4] == 's'
      && s[i + 5] == 'o' && s[i + 6] == 'n'
  {
  }

  lemma JsonFenceIsFence(s: string, j: nat)
    requires MatchesAt(s, j, JSON_FENCE)
    ensures MatchesAt(s, j, FENCE)
  {
  }

  /** Nothing before it can make the first JSON fence start earlier: the fence does not overlap itself. */
  lemma FirstJson(pre: string, rest: string)
    requires !Contains(pre, JSON_FENCE)
    ensures IndexOf(pre + JSON_FENCE + rest, JSON_FENCE) == Some(|pre|)
  {
    var s := pre + JSON_FENCE + rest;
    assert s[|pre|..] == JSON_FENCE + rest;
    assert forall k | 0 <= k < 7 :: s[|pre| + k] == JSON_FENCE[k];
    assert s[|pre|] == '`' && s[|pre| + 1] == '`' && s[|pre| + 2] == '`';
    forall j: nat | j < |pre|
      ensures !MatchesAt(s, j, JSON_FENCE)
    {
      JsonMatch(s, j);
      if j + 7 <= |pre| {
        assert s[j..][..7] == pre[j..][..7];
        assert MatchesAt(s, j, JSON_FENCE) ==> MatchesAt(pre, j, JSON_FENCE);
      }
    }
    IndexOfIs(s, JSON_FENCE, |pre|);
  }

  /** Where the text behind the JSON fence is cut. */
  function Cut(rest: string): nat
    requires Contains(rest, FENCE)
  {
    var f := IndexOf(rest, FENCE).value;
    match IndexOf(rest, JSON_FENCE)
    case None => f
    case Some(i) => if i < f + 3 then i else f
  }

  lemma CutIs(rest: string)
    requires Contains(rest, FENCE)
    ensures Cut(rest) <= |rest| && Split(Split(rest, JSON_FENCE)[0], FENCE)[0] == rest[..Cut(rest)]
  {
    var f := IndexOf(rest, FENCE).value;
    match IndexOf(rest, JSON_FENCE)
    case None =>
    case Some(i) =>
      JsonFenceIsFence(rest, i);
      var h := rest[..i];
      forall j: nat | j < f || i < f + 3
        ensures !MatchesAt(h, j, FENCE)
      {
        FenceMatch(h, j);
        FenceMatch(rest, j);
      }
      if i >= f + 3 {
        FenceMatch(h, f);
        FenceMatch(rest, f);
        IndexOfIs(h, FENCE, f);
        assert h[..f] == rest[..f];
      }
  }

  /** The exact condition on what stands between and behind the fences. */
  predicate Clean(body: string, post: string) {
    if "json" <= post then !Contains(body, FENCE)
    else ClosesAtEnd(body) && !("`json" <= post) && !("``json" <= post)
  }

  lemma JsonNearEnd(body: string, post: string)
    ensures var s := body + FENCE + post;
            && (MatchesAt(s, |body|, JSON_FENCE) <==> "json" <= post)
            && (MatchesAt(s, |body| + 1, JSON_FENCE) <==> "`json" <= post)
            && (MatchesAt(s, |body| + 2, JSON_FENCE) <==> "``json" <= post)
  {
    var s := body + FENCE + post;
    assert s[|body|..] == "```" + post && s[|body| + 1..] == "``" + post && s[|body| + 2..] == "`" + post;
    PrefixShift("```", "json", post);
    PrefixShift("``", "`json", post);
    PrefixShift("`", "``json", post);
    assert JSON_FENCE == "```" + "json" == "``" + "`json" == "`" + "``json";
  }

  lemma PrefixShift(a: string, w: string, t: string)
    ensures a + w <= a + t <==> w <= t
  {
    assert (a + w)[|a|..] == w && (a + t)[|a|..] == t;
    if w <= t {
      assert t == w + t[|w|..];
      assert a + t == a + w + t[|w|..];
    }
    if a + w <= a + t {
      assert (a + t)[..|a + w|] == a + w;
      assert t[..|w|] == w;
    }
  }

  lemma FenceInBody(body: string, post: string)
    ensures var s := body + FENCE + post;
            && Contains(s, FENCE) && IndexOf(s, FENCE).value <= |body|
            && (Contains(body, FENCE) <==> IndexOf(s, FENCE).value + 3 <= |body|)
  {
    var s := body + FENCE + post;
    assert s[|body|] == '`' && s[|body| + 1] == '`' && s[|body| + 2] == '`';
    FenceMatch(s, |body|);
    assert Contains(s, FENCE);
    var f := IndexOf(s, FENCE).value;
    FenceMatch(s, f);
    if f + 3 <= |body| {
      FenceMatch(body, f);
      assert Contains(body, FENCE);
    }
    if Contains(body, FENCE) {
      var j: nat :| j <= |body| && MatchesAt(body, j, FENCE);
      FenceMatch(body, j);
      FenceMatch(s, j);
    }
  }

  lemma NoJsonBeforeEnd(body: string, post: string, j: nat)
    requires j < |body| && |body| < j + 3
    ensures !MatchesAt(body + FENCE + post, j, JSON_FENCE)
  {
    var s := body + FENCE + post;
    assert s[|body|] == '`' && s[|body| + 1] == '`' && s[|body| + 2] == '`';
    JsonMatch(s, j);
  }

  lemma CutBeforeJson(body: string, post: string)
    requires "json" <= post
    ensures Contains(body + FENCE + post, FENCE)
    ensures Cut(body + FENCE + post) == |body| <==> !Contains(body, FENCE)
  {
    var s := body + FENCE + post;
    FenceInBody(body, post);
    JsonNearEnd(body, post);
    assert Contains(s, JSON_FENCE);
    var f, i := IndexOf(s, FENCE).value, IndexOf(s, JSON_FENCE).value;
    JsonFenceIsFence(s, i);
    if i < |body| < i + 3 {
      NoJsonBeforeEnd(body, post, i);
    }
    hide Contains, MatchesAt;
  }

  lemma NowhereAt(s: string, w: string, i: nat)
    requires !Contains(s, w) && i <= |s|
    ensures !MatchesAt(s, i, w)
  {
  }

  lemma CutBeforeOther(body: string, post: string)
    requires !("json" <= post)
    ensures Contains(body + FENCE + post, FENCE)
    ensures Cut(body + FENCE + post) == |body| <==> ClosesAtEnd(body) && !("`json" <= post) && !("``json" <= post)
  {
    var s := body + FENCE + post;
    hide Contains, ClosesAtEnd;
    FenceInBody(body, post);
    FirstFence(body, post);
    JsonNearEnd(body, post);
    var at := IndexOf(s, JSON_FENCE);
    if at.Some? {
      JsonFenceIsFence(s, at.value);
    } else {
      assert |body| + 2 <= |s|;
      NowhereAt(s, JSON_FENCE, |body| + 1);
      NowhereAt(s, JSON_FENCE, |body| + 2);
    }
    hide MatchesAt;
  }

  lemma CutAtEndIff(body: string, post: string)
    ensures Contains(body + FENCE + post, FENCE)
    ensures Cut(body + FENCE + post) == |body| <==> Clean(body, post)
  {
    hide Contains, Cut, ClosesAtEnd;
    if "json" <= post {
      CutBeforeJson(body, post);
    } else {
      CutBeforeOther(body, post);
    }
  }

  /* ---------- trimming ---------- */

  lemma StripSpan(s: string) returns (a: nat, b: nat)
    ensures a <= b <= |s| && Strip(s) == s[a..b]
    ensures forall i | 0 <= i < a || b <= i < |s| :: IsSpace(s[i])
    ensures a < b ==> !IsSpace(s[a]) && !IsSpace(s[b - 1])
  {
    a := StripLeftSpan(s);
    hide IsSpace, StripLeft;
    var l := s[a..];
    var r := StripRight(l);
    b := a + |r|;
    assert r == l[..|r|] == s[a..b];
    assert forall i | a <= i < |s| :: s[i] == l[i - a];
  }

  /** Text that goes on with something other than whitespace trims to something else. */
  lemma StripLonger(q: string, t: string)
    requires t != [] && !IsSpace(t[0])
    ensures Strip(q + t) != Strip(q)
  {
    var p := q + t;
    var a, b := StripSpan(p);
    var c, d := StripSpan(q);
    assert p[|q|] == t[0];
    assert a <= |q| < b;
    assert forall i | 0 <= i < |q| :: p[i] == q[i];
    assert c < d ==> c >= a;
    assert |Strip(p)| == b - a > |q| - a;
  }

  /**
   The planner recovers the trimmed body of the first JSON block exactly when body and rest are clean: in particular
   for every body without a fence that does not end in a backtick, unless the text behind the closing fence starts
   with "`json" or "``json".
   */
  lemma ExtractsBodyIff(pre: string, body: string, post: string)
    requires !Contains(pre, JSON_FENCE)
    ensures ExtractJson(pre + JSON_FENCE + (body + FENCE + post)) == Some(Strip(body)) <==> Clean(body, post)
  {
    var rest := body + FENCE + post;
    CutAtEndIff(body, post);
    CutChar(body, post);
    ExtractsCut(pre, rest);
    hide Clean, Cut, Contains, ExtractJson, Strip;
    assert rest[..|body|] == body;
    StripCutIff(rest, |body|, Cut(rest));
  }

  lemma StripCutIff(s: string, n: nat, c: nat)
    requires n < |s| && c < |s| && !IsSpace(s[n]) && !IsSpace(s[c])
    ensures Strip(s[..c]) == Strip(s[..n]) <==> c == n
  {
    if c < n {
      assert s[..n] == s[..c] + s[c..n];
      StripLonger(s[..c], s[c..n]);
    } else if n < c {
      assert s[..c] == s[..n] + s[n..c];
      StripLonger(s[..n], s[n..c]);
    }
  }

  lemma ExtractsCut(pre: string, rest: string)
    requires !Contains(pre, JSON_FENCE) && Contains(rest, FENCE)
    ensures Cut(rest) <= |rest| && ExtractJson(pre + JSON_FENCE + rest) == Some(Strip(rest[..Cut(rest)]))
  {
    var content := pre + JSON_FENCE + rest;
    FirstJson(pre, rest);
    CutIs(rest);
    hide Cut, Strip, MatchesAt;
    assert content[|pre| + 7..] == rest;
    assert Split(content, JSON_FENCE) == [content[..|pre|]] + Split(rest, JSON_FENCE);
    assert Contains(content, JSON_FENCE);
  }

  /** The cut falls on a backtick. */
  lemma CutChar(body: string, post: string)
    ensures var s := body + FENCE + post;
            Contains(s, FENCE) && Cut(s) < |s| && s[Cut(s)] == '`' && s[|body|] == '`'
  {
    var s := body + FENCE + post;
    FenceInBody(body, post);
    FenceMatch(s, IndexOf(s, FENCE).value);
    match IndexOf(s, JSON_FENCE)
    case None =>
    case Some(i) => JsonMatch(s, i);
  }

  /** A post of "`json" defeats even a plain body. */
  lemma TickJsonDefeats(body: string)
    requires ClosesAtEnd(body)
    ensures ExtractJson(JSON_FENCE + (body + FENCE + "`json")) != Some(Strip(body))
  {
    ExtractsBodyIff("", body, "`json");
    assert "" + JSON_FENCE + (body + FENCE + "`json") == JSON_FENCE + (body + FENCE + "`json");
    assert "`json"[0] != 'j';
  }

  /**
   Without a JSON fence, `pre` being the text up to the first plain fence, the trimmed body is recovered exactly when it
   closes at its end.
   */
  lemma PlainFenceIff(pre: string, body: string, post: string)
    requires !Contains(pre + FENCE + (body + FENCE + post), JSON_FENCE) && ClosesAtEnd(pre)
    ensures ExtractJson(pre + FENCE + (body + FENCE + post)) == Some(Strip(body)) <==> ClosesAtEnd(body)
  {
    var rest := body + FENCE + post;
    FirstFence(body, post);
    FenceInBody(body, post);
    var f := IndexOf(rest, FENCE).value;
    FenceMatch(rest, f);
    assert rest[|body|] == '`' && rest[..|body|] == body;
    PlainCut(pre, rest);
    hide Contains, ExtractJson, Strip, ClosesAtEnd;
    StripCutIff(rest, |body|, f);
  }

  /** What is extracted behind a first plain fence: the text up to the next fence, or all of it when there is none. */
  lemma PlainCut(pre: string, rest: string)
    requires !Contains(pre + FENCE + rest, JSON_FENCE) && ClosesAtEnd(pre)
    ensures ExtractJson(pre + FENCE + rest) ==
            Some(Strip(match IndexOf(rest, FENCE) { case None => rest case Some(f) => rest[..f] }))
  {
    var content := pre + FENCE + rest;
    FirstFence(pre, rest);
    assert content[|pre| + 3..] == rest;
    assert Split(content, FENCE) == [content[..|pre|]] + Split(rest, FENCE);
    FirstPieceIs(rest);
  }

  /** The first piece of a text holds no fence, and splitting it again changes nothing. */
  lemma FirstPieceIs(rest: string)
    ensures Split(Split(rest, FENCE)[0], FENCE)[0]
         == Split(rest, FENCE)[0] == match IndexOf(rest, FENCE) { case None => rest case Some(f) => rest[..f] }
  {
    SplitPieces(rest, FENCE, 0);
    NoFenceSplit(Split(rest, FENCE)[0]);
  }

  /** A fence that is never closed, JSON or plain, leaves everything behind it. */
  lemma UnclosedFence(pre: string, rest: string)
    requires !Contains(rest, FENCE)
    ensures !Contains(pre, JSON_FENCE) ==> ExtractJson(pre + JSON_FENCE + rest) == Some(Strip(rest))
    ensures !Contains(pre + FENCE + rest, JSON_FENCE) && ClosesAtEnd(pre) ==>
      ExtractJson(pre + FENCE + rest) == Some(Strip(rest))
  {
    if !Contains(pre, JSON_FENCE) {
      UnclosedJson(pre, rest);
    }
    if !Contains(pre + FENCE + rest, JSON_FENCE) && ClosesAtEnd(pre) {
      PlainCut(pre, rest);
    }
  }

  lemma UnclosedJson(pre: string, rest: string)
    requires !Contains(rest, FENCE) && !Contains(pre, JSON_FENCE)
    ensures ExtractJson(pre + JSON_FENCE + rest) == Some(Strip(rest))
  {
    var content := pre + JSON_FENCE + rest;
    FirstJson(pre, rest);
    assert content[|pre| + 7..] == rest;
    assert Split(content, JSON_FENCE) == [content[..|pre|]] + Split(rest, JSON_FENCE);
    assert Split(rest, JSON_FENCE)[0] == rest by {
      if Contains(rest, JSON_FENCE) {
        var j: nat :| j <= |rest| && MatchesAt(rest, j, JSON_FENCE);
        JsonFenceIsFence(rest, j);
      }
    }
    NoFenceSplit(rest);
  }

  /** Nothing is handed on exactly when the completion has no fence at all. */
  lemma NothingIff(content: string)
    ensures ExtractJson(content) == None <==> !Contains(content, "```")
  {
    if Contains(content, JSON_FENCE) {
      var j: nat :| j <= |content| && MatchesAt(content, j, JSON_FENCE);
      JsonFenceIsFence(content, j);
      assert Contains(content, FENCE);
    }
  }

  lemma NoFenceSplit(p: string)
    requires !Contains(p, FENCE)
    ensures Split(p, FENCE) == [p]
  {
  }
}
