/**
 * The landing page's intro line: the first sentence of the first bio
 * paragraph, as the regular expression `^[^.]+\.` finds it, with a fixed
 * sentence when the paragraph has none. The page markup around it is not
 * modelled.
 */
module Landing {
  import opened Wrappers

  const FALLBACK_INTRO: string := "Conservation biologist and AI researcher at Cambridge."

  /** The position of the first '.' in `s`, if there is one. */
  function FirstDot(s: string): (r: Option<nat>)
    ensures r.Some? ==> r.value < |s| && s[r.value] == '.' && forall i :: 0 <= i < r.value ==> s[i] != '.'
    ensures r.None? ==> forall i :: 0 <= i < |s| ==> s[i] != '.'
  {
    if |s| == 0 then None
    else if s[0] == '.' then Some(0)
    else match FirstDot(s[1..])
      case Some(k) => Some(k + 1)
      case None => None
  }

  /**
   * `s.match(/^[^.]+\./)`: one or more characters other than '.' (line
   * breaks included, as a negated class takes them) and then a '.'.
   */
  function MatchFirstSentence(s: string): (r: Option<string>)
    ensures r.Some? ==> IsFirstSentence(s, r.value)
    ensures r.None? ==> forall m :: !IsFirstSentence(s, m)
  {
    match FirstDot(s)
    case Some(k) => if k >= 1 then Some(s[..k + 1]) else None
    case None => None
  }

  /** What the expression describes: a prefix of `s` of two or more characters whose only '.' is its last. */
  predicate IsFirstSentence(s: string, m: string)
  {
    2 <= |m| <= |s| && m == s[..|m|] && m[|m| - 1] == '.' &&
    forall i :: 0 <= i < |m| - 1 ==> m[i] != '.'
  }

  /** The number of '.' characters in `s`. */
  function Dots(s: string): nat
  {
    if |s| == 0 then 0 else (if s[0] == '.' then 1 else 0) + Dots(s[1..])
  }

  /** The matcher finds exactly the prefixes the expression describes, and such a prefix is unique. */
  lemma MatchIsFirstSentence(s: string, m: string)
    ensures MatchFirstSentence(s) == Some(m) <==> IsFirstSentence(s, m)
  {
    if IsFirstSentence(s, m) {
      var k := FirstDot(s);
      assert s[|m| - 1] == m[|m| - 1];
      assert k.Some?;
      assert forall i :: 0 <= i < |m| - 1 ==> s[i] == m[i];
    }
  }

  /** A found sentence holds one '.', at its end. */
  lemma {:induction false} SentenceHasOneDot(s: string, m: string)
    requires IsFirstSentence(s, m)
    ensures Dots(m) == 1
  {
    DotsOfDotless(m[..|m| - 1]);
    DotsAppend(m[..|m| - 1], ".");
    assert m == m[..|m| - 1] + ".";
  }

  lemma {:induction false} DotsOfDotless(a: string)
    requires forall i :: 0 <= i < |a| ==> a[i] != '.'
    ensures Dots(a) == 0
  {
    if |a| > 0 {
      DotsOfDotless(a[1..]);
    }
  }

  lemma {:induction false} DotsAppend(a: string, b: string)
    ensures Dots(a + b) == Dots(a) + Dots(b)
  {
    if |a| == 0 {
      assert a + b == b;
    } else {
      DotsAppend(a[1..], b);
      assert (a + b)[0] == a[0] && (a + b)[1..] == a[1..] + b;
    }
  }

  /** `getIntroText()`: the first sentence of the first paragraph, else the fallback. */
  function GetIntroText(bio: seq<string>): (r: string)
    requires |bio| > 0
    ensures MatchFirstSentence(bio[0]).Some? ==> r == MatchFirstSentence(bio[0]).value
    ensures MatchFirstSentence(bio[0]).None? ==> r == FALLBACK_INTRO
  {
    match MatchFirstSentence(bio[0])
    case Some(m) => m
    case None => FALLBACK_INTRO
  }

  /**
   * The fallback is used exactly when the first paragraph has no '.' after
   * its first character; otherwise the intro runs to its first '.'.
   */
  lemma IntroCases(bio: seq<string>)
    requires |bio| > 0
    ensures var p := bio[0];
            (exists i :: 1 <= i < |p| && p[i] == '.' && forall j :: 0 <= j < i ==> p[j] != '.') ==>
              IsFirstSentence(p, GetIntroText(bio))
    ensures var p := bio[0];
            (|p| == 0 || p[0] == '.' || forall i :: 0 <= i < |p| ==> p[i] != '.') ==>
              GetIntroText(bio) == FALLBACK_INTRO
  {
    var p := bio[0];
    if MatchFirstSentence(p).Some? {
      MatchIsFirstSentence(p, MatchFirstSentence(p).value);
    }
  }

  /** Only the first paragraph is read: the others never change the intro. */
  lemma OnlyFirstParagraph(bio: seq<string>, other: seq<string>)
    requires |bio| > 0 && |other| > 0 && other[0] == bio[0]
    ensures GetIntroText(other) == GetIntroText(bio)
  {
  }
}
