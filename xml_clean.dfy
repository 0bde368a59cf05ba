/**
 * `XMLHelpers::cleanXmlString`: a fixed chain of four PCRE replacements and a
 * `trim`, applied to a response body before it is parsed.
 */
module XmlClean {
  import Wrappers

  /** PCRE's `\s` without the `u` flag: space, tab, line feed, vertical tab, form feed, carriage return. */
  predicate IsSpace(c: char)
  {
    c == ' ' || c == '\t' || c == '\n' || c == '\U{0B}' || c == '\U{0C}' || c == '\r'
  }

  /** What PHP's `trim` strips by default: NUL is among them, the form feed is not. */
  predicate IsTrimmed(c: char)
  {
    c == ' ' || c == '\t' || c == '\n' || c == '\r' || c == '\0' || c == '\U{0B}'
  }

  /** The whole cleaning chain. */
  function CleanXmlString(s: string): string
  {
    Trim(TightenTags(SqueezeBlankLines(CollapseSpace(RemoveTabs(s)))))
  }

  /** `preg_replace('/\t+/', '', $s)`. */
  function RemoveTabs(s: string): string
  {
    if s == [] then [] else (if s[0] == '\t' then [] else [s[0]]) + RemoveTabs(s[1..])
  }

  /** End of the run of `\s` characters that starts at `i`. */
  function SpaceRunEnd(s: string, i: nat): (j: nat)
    requires i <= |s|
    ensures i <= j <= |s|
    ensures forall k :: i <= k < j ==> IsSpace(s[k])
    ensures j < |s| ==> !IsSpace(s[j])
    decreases |s| - i
  {
    if i == |s| || !IsSpace(s[i]) then i else SpaceRunEnd(s, i + 1)
  }

  /** `preg_replace('/\s+/', ' ', $s)`: every maximal run of `\s` becomes one space. */
  function CollapseSpace(s: string): string
    decreases |s|
  {
    if s == [] then []
    else if IsSpace(s[0]) then [' '] + CollapseSpace(s[SpaceRunEnd(s, 0)..])
    else [s[0]] + CollapseSpace(s[1..])
  }

  /** Index of the last line feed in `s[lo..hi]`. */
  function LastNewline(s: string, lo: nat, hi: nat): (r: Wrappers.Option<nat>)
    requires lo <= hi <= |s|
    ensures r.Some? ==> lo <= r.value < hi && s[r.value] == '\n'
    decreases hi - lo
  {
    if hi == lo then Wrappers.None
    else if s[hi - 1] == '\n' then Wrappers.Some(hi - 1)
    else LastNewline(s, lo, hi - 1)
  }

  /**
   * `preg_replace('/\n\s*\n/', "\n", $s)`: at a line feed, the greedy `\s*`
   * backs off to the last line feed of the whitespace run that follows, and
   * the search resumes after it.
   */
  function SqueezeBlankLines(s: string): string
    decreases |s|
  {
    if s == [] then []
    else if s[0] == '\n' then
      match LastNewline(s, 1, SpaceRunEnd(s, 1))
      case Some(m) => "\n" + SqueezeBlankLines(s[m + 1..])
      case None => "\n" + SqueezeBlankLines(s[1..])
    else [s[0]] + SqueezeBlankLines(s[1..])
  }

  /** `preg_replace('/>\s+</', '><', $s)`. */
  function TightenTags(s: string): string
    decreases |s|
  {
    if s == [] then []
    else if s[0] == '>' then
      var e := SpaceRunEnd(s, 1);
      if 1 < e < |s| && s[e] == '<' then "><" + TightenTags(s[e + 1..])
      else ">" + TightenTags(s[1..])
    else [s[0]] + TightenTags(s[1..])
  }

  /** First index at or after `i` that `trim` keeps. */
  function TrimStart(s: string, i: nat): (j: nat)
    requires i <= |s|
    ensures i <= j <= |s|
    ensures forall k :: i <= k < j ==> IsTrimmed(s[k])
    ensures j < |s| ==> !IsTrimmed(s[j])
    decreases |s| - i
  {
    if i == |s| || !IsTrimmed(s[i]) then i else TrimStart(s, i + 1)
  }

  /** One past the last index in `[lo, j)` that `trim` keeps, or `lo`. */
  function TrimEnd(s: string, lo: nat, j: nat): (k: nat)
    requires lo <= j <= |s|
    ensures lo <= k <= j
    ensures forall m :: k <= m < j ==> IsTrimmed(s[m])
    ensures k > lo ==> !IsTrimmed(s[k - 1])
    decreases j - lo
  {
    if j == lo || !IsTrimmed(s[j - 1]) then j else TrimEnd(s, lo, j - 1)
  }

  /** PHP's `trim($s)`. */
  function Trim(s: string): string
  {
    var lo := TrimStart(s, 0);
    s[lo..TrimEnd(s, lo, |s|)]
  }

  // ---------------------------------------------------------------------
  // What the chain guarantees about its output.

  /** The only whitespace is the plain space, and never two in a row. */
  ghost predicate Collapsed(t: string)
  {
    && (forall i :: 0 <= i < |t| && IsSpace(t[i]) ==> t[i] == ' ')
    && (forall i :: 0 <= i < |t| - 1 ==> !(IsSpace(t[i]) && IsSpace(t[i + 1])))
  }

  /** No `>` followed by whitespace followed by `<`. */
  ghost predicate NoGapBetweenTags(t: string)
  {
    forall i :: 0 <= i < |t| - 2 ==> !(t[i] == '>' && IsSpace(t[i + 1]) && t[i + 2] == '<')
  }

  /** Everything `cleanXmlString` promises about its output. */
  ghost predicate Tidy(t: string)
  {
    && Collapsed(t)
    && NoGapBetweenTags(t)
    && (|t| > 0 ==> !IsTrimmed(t[0]) && !IsTrimmed(t[|t| - 1]))
  }

  lemma {:induction false} RemoveTabsSpec(s: string)
    ensures forall i :: 0 <= i < |RemoveTabs(s)| ==> RemoveTabs(s)[i] != '\t'
    ensures (forall i :: 0 <= i < |s| ==> s[i] != '\t') ==> RemoveTabs(s) == s
    decreases |s|
  {
    if s != [] {
      RemoveTabsSpec(s[1..]);
    }
  }

  lemma SuffixCollapsed(s: string, k: nat)
    requires k <= |s| && Collapsed(s)
    ensures Collapsed(s[k..])
  {
    var u := s[k..];
    assert forall i :: 0 <= i < |u| ==> u[i] == s[k + i];
  }

  lemma ConsCollapsed(c: char, t: string)
    requires Collapsed(t)
    requires IsSpace(c) ==> c == ' ' && (|t| == 0 || !IsSpace(t[0]))
    ensures Collapsed([c] + t)
  {
    var u := [c] + t;
    assert forall i :: 1 <= i < |u| ==> u[i] == t[i - 1];
  }

  lemma ConsNoGap(c: char, t: string)
    requires NoGapBetweenTags(t)
    requires c == '>' && |t| >= 2 ==> !(IsSpace(t[0]) && t[1] == '<')
    ensures NoGapBetweenTags([c] + t)
  {
    var u := [c] + t;
    assert forall i :: 1 <= i < |u| ==> u[i] == t[i - 1];
  }

  lemma {:induction false} CollapseSpaceSpec(s: string)
    ensures Collapsed(CollapseSpace(s))
    ensures |s| > 0 ==> |CollapseSpace(s)| > 0 && CollapseSpace(s)[0] == (if IsSpace(s[0]) then ' ' else s[0])
    ensures Collapsed(s) ==> CollapseSpace(s) == s
    decreases |s|
  {
    if s != [] {
      if IsSpace(s[0]) {
        var e := SpaceRunEnd(s, 0);
        assert e >= 1;
        CollapseSpaceSpec(s[e..]);
        ConsCollapsed(' ', CollapseSpace(s[e..]));
        if Collapsed(s) {
          assert |s| == 1 || !IsSpace(s[1]);
          assert e == 1;
          SuffixCollapsed(s, 1);
        }
      } else {
        CollapseSpaceSpec(s[1..]);
        ConsCollapsed(s[0], CollapseSpace(s[1..]));
        if Collapsed(s) {
          SuffixCollapsed(s, 1);
        }
      }
    }
  }

  lemma {:induction false} SqueezeWithoutNewline(s: string)
    requires forall i :: 0 <= i < |s| ==> s[i] != '\n'
    ensures SqueezeBlankLines(s) == s
    decreases |s|
  {
    if s != [] {
      SqueezeWithoutNewline(s[1..]);
    }
  }

  /** What `TightenTags` guarantees for a collapsed input. */
  ghost predicate TightensWell(s: string)
  {
    var t := TightenTags(s);
    && Collapsed(t) && NoGapBetweenTags(t)
    && (|s| > 0 ==> |t| > 0 && t[0] == s[0])
    && (NoGapBetweenTags(s) ==> t == s)
  }

  lemma {:induction false} TightenTagsSpec(s: string)
    requires Collapsed(s)
    ensures Collapsed(TightenTags(s)) && NoGapBetweenTags(TightenTags(s))
    ensures |s| > 0 ==> |TightenTags(s)| > 0 && TightenTags(s)[0] == s[0]
    ensures NoGapBetweenTags(s) ==> TightenTags(s) == s
    decreases |s|, 2
  {
    if s == [] {
    } else if s[0] == '>' && 1 < SpaceRunEnd(s, 1) < |s| && s[SpaceRunEnd(s, 1)] == '<' {
      TightenAtGap(s);
    } else if s[0] == '>' {
      TightenAtTagEnd(s);
    } else {
      TightenAtOther(s);
    }
  }

  /** `>`, one blank, `<`: the blank goes. */
  lemma {:induction false} TightenAtGap(s: string)
    requires Collapsed(s) && s != [] && s[0] == '>'
    requires 1 < SpaceRunEnd(s, 1) < |s| && s[SpaceRunEnd(s, 1)] == '<'
    ensures TightensWell(s)
    decreases |s|, 0
  {
    GapIsOneBlank(s);
    SuffixCollapsed(s, 3);
    var r := TightenTags(s[3..]);
    TightenTagsSpec(s[3..]);
    TagsJoined(r);
    GapJoined(s);
    assert TightenTags(s)[0] == s[0];
  }

  /** The gap found, the two tags are joined and the rest is tightened on its own. */
  lemma GapJoined(s: string)
    requires s != [] && s[0] == '>' && |s| > 2 && SpaceRunEnd(s, 1) == 2 && s[2] == '<'
    ensures TightenTags(s) == "><" + TightenTags(s[3..])
  {
  }

  /** Two tags joined in front of a tidy rest leave it tidy. */
  lemma TagsJoined(r: string)
    requires Collapsed(r) && NoGapBetweenTags(r)
    ensures Collapsed("><" + r) && NoGapBetweenTags("><" + r)
  {
    ConsCollapsed('<', r);
    ConsNoGap('<', r);
    ConsCollapsed('>', ['<'] + r);
    ConsNoGap('>', ['<'] + r);
    assert "><" + r == ['>'] + (['<'] + r);
  }

  /** In a collapsed string, the blank run after a `>` at the start is one character long. */
  lemma GapIsOneBlank(s: string)
    requires Collapsed(s) && s != [] && s[0] == '>'
    requires 1 < SpaceRunEnd(s, 1) < |s| && s[SpaceRunEnd(s, 1)] == '<'
    ensures SpaceRunEnd(s, 1) == 2 && IsSpace(s[1]) && s[2] == '<'
    ensures !NoGapBetweenTags(s)
  {
    assert IsSpace(s[1]);
    assert !IsSpace(s[2]) by { assert !(IsSpace(s[1]) && IsSpace(s[2])); }
  }

  /** A `>` not followed by a blank and a `<` is kept. */
  lemma {:induction false} TightenAtTagEnd(s: string)
    requires Collapsed(s) && s != [] && s[0] == '>'
    requires !(1 < SpaceRunEnd(s, 1) < |s| && s[SpaceRunEnd(s, 1)] == '<')
    ensures TightensWell(s)
    decreases |s|, 1
  {
    SuffixCollapsed(s, 1);
    var r := TightenTags(s[1..]);
    TightenTagsSpec(s[1..]);
    assert TightenTags(s) == ['>'] + r;
    NoGapAfterTagEnd(s);
    ConsCollapsed('>', r);
    ConsNoGap('>', r);
    if NoGapBetweenTags(s) {
      var u := s[1..];
      assert forall i :: 0 <= i < |u| ==> u[i] == s[i + 1];
    }
  }

  /** After a kept `>`, the output does not go on with a blank and a `<`. */
  lemma {:induction false} NoGapAfterTagEnd(s: string)
    requires Collapsed(s) && s != [] && s[0] == '>'
    requires !(1 < SpaceRunEnd(s, 1) < |s| && s[SpaceRunEnd(s, 1)] == '<')
    ensures var r := TightenTags(s[1..]); |r| >= 2 ==> !(IsSpace(r[0]) && r[1] == '<')
    decreases |s|, 0
  {
    if |s| > 2 && IsSpace(s[1]) {
      assert !IsSpace(s[2]) by { assert !(IsSpace(s[1]) && IsSpace(s[2])); }
      assert SpaceRunEnd(s, 1) == 2;
      SuffixCollapsed(s, 2);
      TightenTagsSpec(s[2..]);
      assert s[1..][1..] == s[2..];
      assert s[1] != '>';
      assert TightenTags(s[1..]) == [s[1]] + TightenTags(s[2..]);
    } else if |s| > 1 {
      TightenTagsSpec(s[1..]);
    }
  }

  /** Any other character is kept. */
  lemma {:induction false} TightenAtOther(s: string)
    requires Collapsed(s) && s != [] && s[0] != '>'
    ensures TightensWell(s)
    decreases |s|, 0
  {
    SuffixCollapsed(s, 1);
    var r := TightenTags(s[1..]);
    TightenTagsSpec(s[1..]);
    assert TightenTags(s) == [s[0]] + r;
    ConsCollapsed(s[0], r);
    ConsNoGap(s[0], r);
    if NoGapBetweenTags(s) {
      var u := s[1..];
      assert forall i :: 0 <= i < |u| ==> u[i] == s[i + 1];
    }
  }

  /** A slice of a collapsed string without gaps between tags is again one. */
  lemma SliceKeepsShape(t: string, lo: nat, hi: nat)
    requires lo <= hi <= |t|
    requires Collapsed(t) && NoGapBetweenTags(t)
    ensures Collapsed(t[lo..hi]) && NoGapBetweenTags(t[lo..hi])
  {
    var u := t[lo..hi];
    assert forall i :: 0 <= i < |u| ==> u[i] == t[lo + i];
  }

  lemma TrimSpec(s: string)
    ensures var lo := TrimStart(s, 0);
            var hi := TrimEnd(s, lo, |s|);
            Trim(s) == s[lo..hi] && (lo < hi ==> !IsTrimmed(s[lo]) && !IsTrimmed(s[hi - 1]))
    ensures |s| > 0 && !IsTrimmed(s[0]) && !IsTrimmed(s[|s| - 1]) ==> Trim(s) == s
  {
  }

  /** The output of `cleanXmlString` has no tab or line feed, no run of whitespace, no blank between tags, and no whitespace at either end. */
  lemma CleanIsTidy(s: string)
    ensures Tidy(CleanXmlString(s))
  {
    var c2 := CollapseSpace(RemoveTabs(s));
    CollapseSpaceSpec(RemoveTabs(s));
    CollapsedHasNoNewline(c2);
    SqueezeWithoutNewline(c2);
    TightenTagsSpec(c2);
    TrimIsTidy(TightenTags(c2));
  }

  lemma TrimIsTidy(t: string)
    requires Collapsed(t) && NoGapBetweenTags(t)
    ensures Tidy(Trim(t))
  {
    TrimSpec(t);
    var lo := TrimStart(t, 0);
    SliceKeepsShape(t, lo, TrimEnd(t, lo, |t|));
  }

  lemma CollapsedHasNoNewline(t: string)
    requires Collapsed(t)
    ensures forall i :: 0 <= i < |t| ==> t[i] != '\n'
  {
    forall i | 0 <= i < |t|
      ensures t[i] != '\n'
    {
      if t[i] == '\n' {
        assert IsSpace(t[i]);
      }
    }
  }

  /** A tidy string is left as it is, so cleaning twice is cleaning once. */
  lemma TidyIsFixedPoint(t: string)
    requires Tidy(t)
    ensures CleanXmlString(t) == t
  {
    RemoveTabsSpec(t);
    CollapseSpaceSpec(t);
    CollapsedHasNoNewline(t);
    SqueezeWithoutNewline(t);
    TightenTagsSpec(t);
    TrimSpec(t);
  }

  lemma CleanIsIdempotent(s: string)
    ensures CleanXmlString(CleanXmlString(s)) == CleanXmlString(s)
  {
    CleanIsTidy(s);
    TidyIsFixedPoint(CleanXmlString(s));
  }

  lemma {:induction false} RemoveTabsConcat(a: string, b: string)
    ensures RemoveTabs(a + b) == RemoveTabs(a) + RemoveTabs(b)
    decreases |a|
  {
    if a != [] {
      var head := if a[0] == '\t' then [] else [a[0]];
      assert (a + b)[0] == a[0] && (a + b)[1..] == a[1..] + b;
      assert RemoveTabs(a + b) == head + RemoveTabs(a[1..] + b);
      RemoveTabsConcat(a[1..], b);
      assert RemoveTabs(a) == head + RemoveTabs(a[1..]);
    } else {
      assert a + b == b;
    }
  }

  /** A tab is dropped, not turned into a space: cleaning ignores it wherever it stands. */
  lemma TabIsDropped(a: string, b: string)
    ensures CleanXmlString(a + "\t" + b) == CleanXmlString(a + b)
  {
    assert RemoveTabs("\t") == [] by {
      assert "\t"[1..] == [];
    }
    RemoveTabsConcat(a + "\t", b);
    RemoveTabsConcat(a, "\t");
    RemoveTabsConcat(a, b);
    assert RemoveTabs(a + "\t" + b) == RemoveTabs(a + b);
  }

  /** The blank between two tags goes: `<a> <b>` becomes `<a><b>`. */
  lemma BlankBetweenTagsGoes()
    ensures CleanXmlString("<a> <b>") == "<a><b>"
  {
    FirstThreeKeepExample();
    TightenExample();
    TrimSpec("<a><b>");
  }

  /** The first three replacements find nothing to do in `<a> <b>`. */
  lemma FirstThreeKeepExample()
    ensures SqueezeBlankLines(CollapseSpace(RemoveTabs("<a> <b>"))) == "<a> <b>"
  {
    var s := "<a> <b>";
    assert Collapsed(s);
    RemoveTabsSpec(s);
    CollapseSpaceSpec(s);
    CollapsedHasNoNewline(s);
    SqueezeWithoutNewline(s);
  }

  lemma TightenExample()
    ensures TightenTags("<a> <b>") == "<a><b>"
  {
    assert "<a> <b>"[1..] == "a> <b>";
    assert "a> <b>"[1..] == "> <b>";
    TightenExampleGap();
  }

  lemma TightenExampleGap()
    ensures TightenTags("> <b>") == "><b>"
  {
    assert SpaceRunEnd("> <b>", 1) == 2;
    assert "> <b>"[3..] == "b>";
    TightenExampleEnd();
  }

  lemma TightenExampleEnd()
    ensures TightenTags("b>") == "b>"
  {
    assert "b>"[1..] == ">";
    assert ">"[1..] == [];
  }
}
