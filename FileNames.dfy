/** The names main.py gives to stored references, `{chat_id}_{ts}.jpg`, and
    the glob patterns `{chat_id}_*.jpg` and `{chat_id}_*.png` it lists them
    with. The styles directory itself is left implicit: every name lives in
    it. */
module FileNames {

  predicate IsDigit(c: char)
  {
    '0' <= c <= '9'
  }

  function DigitChar(d: nat): (c: char)
    requires d < 10
    ensures IsDigit(c)
  {
    ('0' as int + d) as char
  }

  /** Decimal text of a natural number, as Python's str() writes it. */
  function NatToString(n: nat): (s: string)
    ensures |s| > 0
    ensures forall i :: 0 <= i < |s| ==> IsDigit(s[i])
  {
    if n < 10 then [DigitChar(n)] else NatToString(n / 10) + [DigitChar(n % 10)]
  }

  /** Reads decimal digits back (the inverse of NatToString). */
  function ParseNat(s: string): int
  {
    if s == [] then 0 else ParseNat(s[..|s| - 1]) * 10 + (s[|s| - 1] as int - '0' as int)
  }

  lemma {:induction false} ParseNatToString(n: nat)
    ensures ParseNat(NatToString(n)) == n
  {
    if n >= 10 {
      var s := NatToString(n);
      assert s[..|s| - 1] == NatToString(n / 10);
      ParseNatToString(n / 10);
    }
  }

  /** Decimal text of a chat id, as an f-string writes it: a minus sign for
      the negative ids of group chats. */
  function IntToString(i: int): (s: string)
    ensures |s| > 0
    ensures forall k :: 0 <= k < |s| ==> IsDigit(s[k]) || s[k] == '-'
  {
    if i < 0 then "-" + NatToString(-i) else NatToString(i)
  }

  function ParseInt(s: string): int
  {
    if |s| > 0 && s[0] == '-' then -ParseNat(s[1..]) else ParseNat(s)
  }

  lemma IntToStringRoundTrip(i: int)
    ensures ParseInt(IntToString(i)) == i
  {
    if i < 0 {
      assert IntToString(i)[1..] == NatToString(-i);
      ParseNatToString(-i);
    } else {
      ParseNatToString(i);
    }
  }

  /** Distinct chats have distinct decimal texts. */
  lemma IntToStringInjective(a: int, b: int)
    requires IntToString(a) == IntToString(b)
    ensures a == b
  {
    IntToStringRoundTrip(a);
    IntToStringRoundTrip(b);
  }

  function ChatPrefix(chat: int): (p: string)
    ensures |p| > 0 && p[|p| - 1] == '_'
    ensures forall k :: 0 <= k < |p| - 1 ==> p[k] != '_'
  {
    IntToString(chat) + "_"
  }

  /** `f"{chat_id}_{ts}.jpg"`: the name a saved reference is given. */
  function StyleFileName(chat: int, ts: nat): string
  {
    ChatPrefix(chat) + NatToString(ts) + ".jpg"
  }

  /** The glob pattern `{chat}_*{ext}`: the name starts with the chat's prefix
      and ends with the extension, and the two do not overlap. */
  predicate MatchesGlob(name: string, chat: int, ext: string)
  {
    var p := ChatPrefix(chat);
    |p| + |ext| <= |name| && name[..|p|] == p && name[|name| - |ext|..] == ext
  }

  /** What get_style_images lists for the chat: the union of both patterns. */
  predicate IsStyleFileOf(name: string, chat: int)
  {
    MatchesGlob(name, chat, ".jpg") || MatchesGlob(name, chat, ".png")
  }

  /** A name that starts with the prefixes of two chats belongs to one chat:
      the first '_' of the name ends the chat id. */
  lemma {:induction false} PrefixDeterminesChat(name: string, a: int, b: int)
    requires |ChatPrefix(a)| <= |name| && name[..|ChatPrefix(a)|] == ChatPrefix(a)
    requires |ChatPrefix(b)| <= |name| && name[..|ChatPrefix(b)|] == ChatPrefix(b)
    ensures a == b
  {
    var pa, pb := ChatPrefix(a), ChatPrefix(b);
    // Both prefixes end at the first '_' of the name, so they have one length.
    forall k | 0 <= k < |pa| ensures name[k] == pa[k] {
      assert name[..|pa|][k] == name[k];
    }
    forall k | 0 <= k < |pb| ensures name[k] == pb[k] {
      assert name[..|pb|][k] == name[k];
    }
    assert |pa| == |pb|;
    assert pa == pb;
    assert IntToString(a) == pa[..|pa| - 1] == IntToString(b);
    IntToStringInjective(a, b);
  }

  /** Every listed file belongs to exactly one chat. */
  lemma StyleFileOwnerUnique(name: string, a: int, b: int)
    requires IsStyleFileOf(name, a) && IsStyleFileOf(name, b)
    ensures a == b
  {
    PrefixDeterminesChat(name, a, b);
  }

  /** A saved reference is listed for its own chat and for no other. */
  lemma StyleFileNameOwner(chat: int, ts: nat, other: int)
    ensures IsStyleFileOf(StyleFileName(chat, ts), other) <==> other == chat
  {
    var name := StyleFileName(chat, ts);
    var p := ChatPrefix(chat);
    assert name[..|p|] == p;
    assert name[|name| - 4..] == ".jpg";
    assert MatchesGlob(name, chat, ".jpg");
    if IsStyleFileOf(name, other) {
      StyleFileOwnerUnique(name, chat, other);
    }
  }
}
