/** The intent classifier shared by both bot variants: the caption of an
    incoming photo is stripped of surrounding whitespace and lowercased, then
    searched for any of a fixed list of keywords; the photo is saved as a style
    reference when the chat is in "set style" mode or when a keyword occurs. */
module Caption {

  import opened Wrappers

  /** The caption keywords, in the order the bot tests them. */
  const Keywords: seq<string> := ["add", "ref", "style", "salva", "mood"]

  /** The ASCII characters for which Python's str.isspace() holds: tab, line
      feed, vertical tab, form feed, carriage return (9..13), the four
      separators 0x1C..0x1F and the space (32). */
  predicate IsSpace(c: char)
  {
    9 <= c as int <= 13 || 28 <= c as int <= 32
  }

  predicate IsUpper(c: char)
  {
    'A' <= c <= 'Z'
  }

  function LowerChar(c: char): (d: char)
    ensures !IsUpper(d)
    ensures IsUpper(c) ==> d as int == c as int + 32
    ensures !IsUpper(c) ==> d == c
  {
    if IsUpper(c) then (c as int + 32) as char else c
  }

  /** str.lower() restricted to ASCII letters. */
  function Lower(s: string): (r: string)
    ensures |r| == |s|
    ensures forall i :: 0 <= i < |s| ==> r[i] == LowerChar(s[i])
    ensures forall i :: 0 <= i < |r| ==> !IsUpper(r[i])
    ensures forall i :: 0 <= i < |s| ==> IsSpace(r[i]) == IsSpace(s[i])
  {
    seq(|s|, i requires 0 <= i < |s| => LowerChar(s[i]))
  }

  /** Number of whitespace characters at the front of s. */
  function LeadingSpace(s: string): (k: nat)
    ensures k <= |s|
    ensures forall i :: 0 <= i < k ==> IsSpace(s[i])
    ensures k < |s| ==> !IsSpace(s[k])
  {
    if |s| > 0 && IsSpace(s[0]) then 1 + LeadingSpace(s[1..]) else 0
  }

  /** Number of whitespace characters at the end of s. */
  function TrailingSpace(s: string): (k: nat)
    ensures k <= |s|
    ensures forall i :: |s| - k <= i < |s| ==> IsSpace(s[i])
    ensures k < |s| ==> !IsSpace(s[|s| - 1 - k])
  {
    if |s| > 0 && IsSpace(s[|s| - 1]) then 1 + TrailingSpace(s[..|s| - 1]) else 0
  }

  /** The bounds [lo, hi) of what str.strip() keeps: everything outside is
      whitespace, and what is kept starts and ends with a non-space. */
  function StripBounds(s: string): (b: (nat, nat))
    ensures b.0 <= b.1 <= |s|
    ensures forall i :: 0 <= i < b.0 ==> IsSpace(s[i])
    ensures forall i :: b.1 <= i < |s| ==> IsSpace(s[i])
    ensures b.0 < b.1 ==> !IsSpace(s[b.0]) && !IsSpace(s[b.1 - 1])
  {
    var lo := LeadingSpace(s);
    var t := s[lo..];
    (lo, lo + |t| - TrailingSpace(t))
  }

  function Strip(s: string): string
  {
    var b := StripBounds(s);
    s[b.0..b.1]
  }

  /** `(caption or "")`: an absent caption reads as the empty text. */
  function CaptionText(caption: Option<string>): string
  {
    match caption
    case None => ""
    case Some(t) => t
  }

  /** `(caption or "").strip().lower()` */
  function Normalize(caption: Option<string>): string
  {
    Lower(Strip(CaptionText(caption)))
  }

  /** w occurs in s starting at index i. */
  predicate OccursAt(s: string, w: string, i: int)
  {
    0 <= i && i + |w| <= |s| && forall j :: 0 <= j < |w| ==> s[i + j] == w[j]
  }

  /** Python's `w in s` for strings, searched from the left. */
  predicate Contains(s: string, w: string)
    decreases |s|
  {
    (|w| <= |s| && s[..|w|] == w) || (|s| > 0 && Contains(s[1..], w))
  }

  lemma {:induction false} ContainsIff(s: string, w: string)
    ensures Contains(s, w) <==> exists i :: OccursAt(s, w, i)
    decreases |s|
  {
    if |w| <= |s| && s[..|w|] == w {
      assert OccursAt(s, w, 0);
    } else if |s| > 0 {
      ContainsIff(s[1..], w);
      if Contains(s[1..], w) {
        var i :| OccursAt(s[1..], w, i);
        assert OccursAt(s, w, i + 1);
      } else {
        assert !OccursAt(s, w, 0);
        forall i | OccursAt(s, w, i) ensures OccursAt(s[1..], w, i - 1) {}
      }
    }
  }

  /** `any(word in text for word in words)` */
  function AnyContained(text: string, words: seq<string>): (r: bool)
    ensures r <==> exists k :: 0 <= k < |words| && Contains(text, words[k])
  {
    if words == [] then false
    else Contains(text, words[0]) || AnyContained(text, words[1..])
  }

  /** The caption asks for the photo to be kept as a style reference. */
  function IsSaveRequest(text: string): bool
  {
    AnyContained(text, Keywords)
  }

  datatype Decision =
    | SaveReference(viaCaption: bool)  // viaCaption: the keyword fired while the mode was off
    | TreatAsSubject

  /** The save-versus-subject decision taken on every incoming photo. */
  function Classify(settingStyle: bool, caption: Option<string>): (d: Decision)
    ensures d.SaveReference? <==> settingStyle || IsSaveRequest(Normalize(caption))
    ensures d.SaveReference? ==> (d.viaCaption <==> !settingStyle && IsSaveRequest(Normalize(caption)))
  {
    var asked := IsSaveRequest(Normalize(caption));
    if settingStyle || asked then SaveReference(asked && !settingStyle) else TreatAsSubject
  }

  /** Whitespace padding never hides nor creates an occurrence of a word that
      contains no whitespace. */
  lemma {:induction false} ContainsIgnoresPadding(t: string, lo: nat, hi: nat, w: string)
    requires lo <= hi <= |t|
    requires forall i :: 0 <= i < lo ==> IsSpace(t[i])
    requires forall i :: hi <= i < |t| ==> IsSpace(t[i])
    requires forall i :: 0 <= i < |w| ==> !IsSpace(w[i])
    ensures Contains(t[lo..hi], w) <==> Contains(t, w)
  {
    ContainsIff(t[lo..hi], w);
    ContainsIff(t, w);
    if Contains(t[lo..hi], w) {
      var p :| OccursAt(t[lo..hi], w, p);
      assert OccursAt(t, w, lo + p);
    }
    if Contains(t, w) {
      var p :| OccursAt(t, w, p);
      if |w| == 0 {
        assert OccursAt(t[lo..hi], w, 0);
      } else {
        assert t[p] == w[0];
        assert t[p + |w| - 1] == w[|w| - 1];
        assert lo <= p && p + |w| <= hi;
        assert OccursAt(t[lo..hi], w, p - lo);
      }
    }
  }

  lemma KeywordsHaveNoSpace(k: nat)
    requires k < |Keywords|
    ensures forall i :: 0 <= i < |Keywords[k]| ==> !IsSpace(Keywords[k][i])
  {
  }

  /** Stripping is irrelevant to the decision: a photo is saved iff the mode is
      on or the lowercased caption, whitespace and all, holds a keyword. */
  lemma SaveIffModeOrKeyword(settingStyle: bool, caption: Option<string>)
    ensures Classify(settingStyle, caption).SaveReference?
        <==> settingStyle || exists k :: 0 <= k < |Keywords| && Contains(Lower(CaptionText(caption)), Keywords[k])
  {
    var t := CaptionText(caption);
    var b := StripBounds(t);
    var lt := Lower(t);
    assert Lower(Strip(t)) == lt[b.0..b.1];
    forall k | 0 <= k < |Keywords|
      ensures Contains(Normalize(caption), Keywords[k]) <==> Contains(lt, Keywords[k])
    {
      KeywordsHaveNoSpace(k);
      ContainsIgnoresPadding(lt, b.0, b.1, Keywords[k]);
    }
  }

  /** With the mode on, a photo without a caption is saved, not via the caption. */
  lemma ModeOnSavesUncaptioned()
    ensures Classify(true, None) == SaveReference(false)
  {
  }

  /** A caption that mentions a keyword, in any case, saves. */
  lemma KeywordCaptionSaves()
    ensures Classify(false, Some("please ADD to mood")) == SaveReference(true)
  {
    var t := "please ADD to mood";
    var n := Normalize(Some(t));
    assert StripBounds(t) == (0, 18);
    assert n == Lower(t[0..18]);
    assert OccursAt(n, "add", 7);
    ContainsIff(n, "add");
  }

  /** No character of s is the first character of w, so w does not occur. */
  lemma {:induction false} AbsentByFirstChar(s: string, w: string)
    requires |w| >= 1
    requires forall i :: 0 <= i < |s| ==> s[i] != w[0]
    ensures !Contains(s, w)
    decreases |s|
  {
    if |s| > 0 {
      if |w| <= |s| {
        assert s[..|w|][0] == s[0];
      }
      AbsentByFirstChar(s[1..], w);
    }
  }

  /** A caption that is already lowercase and unpadded is its own normal form. */
  lemma NormalizeFixesNormalText(t: string)
    requires forall i :: 0 <= i < |t| ==> !IsUpper(t[i])
    requires t != [] ==> !IsSpace(t[0]) && !IsSpace(t[|t| - 1])
    ensures Normalize(Some(t)) == t
  {
    assert StripBounds(t) == (0, |t|);
    assert Lower(t) == t;
  }

  /** With the mode off, a lowercase unpadded caption containing none of the
      keywords' first letters makes the photo a subject. */
  lemma NoKeywordInitialIsSubject(t: string)
    requires forall i :: 0 <= i < |t| ==> !IsUpper(t[i]) && t[i] !in "arsm"
    requires t != [] ==> !IsSpace(t[0]) && !IsSpace(t[|t| - 1])
    ensures Classify(false, Some(t)) == TreatAsSubject
  {
    NormalizeFixesNormalText(t);
    forall k | 0 <= k < |Keywords| ensures !Contains(t, Keywords[k]) {
      assert Keywords[k][0] in "arsm";
      AbsentByFirstChar(t, Keywords[k]);
    }
  }

  /** A caption without any keyword makes the photo a subject. */
  lemma PlainCaptionIsSubject()
    ensures Classify(false, Some("nice photo")) == TreatAsSubject
  {
    NoKeywordInitialIsSubject("nice photo");
  }
}
