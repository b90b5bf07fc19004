/** EscapeJSONPointer of provider/base.go: the reference tokens of RFC 6901. */
module JsonPointer {
  /** strings.ReplaceAll for a one-character pattern. */
  function ReplaceAll(s: string, old_: char, new_: string): string {
    if s == "" then "" else (if s[0] == old_ then new_ else [s[0]]) + ReplaceAll(s[1..], old_, new_)
  }

  /** strings.ReplaceAll for a two-character pattern: left to right, without overlaps. */
  function ReplacePairs(s: string, old_: string, new_: char): string
    requires |old_| == 2
  {
    if |s| < 2 then s
    else if s[..2] == old_ then [new_] + ReplacePairs(s[2..], old_, new_)
    else [s[0]] + ReplacePairs(s[1..], old_, new_)
  }

  function EscapeJsonPointer(s: string): string {
    ReplaceAll(ReplaceAll(s, '~', "~0"), '/', "~1")
  }

  /** Section 4 of RFC 6901: first "~1" becomes "/", then "~0" becomes "~". */
  function Unescape(token: string): string {
    ReplacePairs(ReplacePairs(token, "~1", '/'), "~0", '~')
  }

  /** The grammar of section 3 of RFC 6901: no "/", and every "~" begins "~0" or "~1". */
  predicate IsToken(t: string) {
    t == "" || (t[0] != '/' && if t[0] == '~' then |t| >= 2 && t[1] in {'0', '1'} && IsToken(t[2..]) else IsToken(t[1..]))
  }

  /** One pass, character by character. */
  function EscapeChar(c: char): string {
    if c == '~' then "~0" else if c == '/' then "~1" else [c]
  }

  function Encode(s: string): string {
    if s == "" then "" else EscapeChar(s[0]) + Encode(s[1..])
  }

  /** A token read in one pass, escape by escape. */
  function Decode(t: string): string
    requires IsToken(t)
  {
    if t == "" then ""
    else if t[0] == '~' then [if t[1] == '0' then '~' else '/'] + Decode(t[2..])
    else [t[0]] + Decode(t[1..])
  }

  lemma {:induction false} ReplaceAllInTwo(s: string, t: string, old_: char, new_: string)
    ensures ReplaceAll(s + t, old_, new_) == ReplaceAll(s, old_, new_) + ReplaceAll(t, old_, new_)
  {
    if s == "" {
      assert s + t == t;
    } else {
      var head := if s[0] == old_ then new_ else [s[0]];
      assert (s + t)[1..] == s[1..] + t;
      assert ReplaceAll(s + t, old_, new_) == head + ReplaceAll(s[1..] + t, old_, new_);
      ReplaceAllInTwo(s[1..], t, old_, new_);
      assert head + (ReplaceAll(s[1..], old_, new_) + ReplaceAll(t, old_, new_)) ==
             head + ReplaceAll(s[1..], old_, new_) + ReplaceAll(t, old_, new_);
    }
  }

  /** The two passes are the one pass: what the first writes the second leaves alone. */
  lemma {:induction false} TwoPassesAreOne(s: string)
    ensures EscapeJsonPointer(s) == Encode(s)
  {
    if s == "" {
    } else {
      var first := ReplaceAll([s[0]], '~', "~0");
      assert s == [s[0]] + s[1..];
      ReplaceAllInTwo([s[0]], s[1..], '~', "~0");
      ReplaceAllInTwo(first, ReplaceAll(s[1..], '~', "~0"), '/', "~1");
      assert [s[0]][1..] == "";
      assert first == if s[0] == '~' then "~0" else [s[0]];
      assert "~0"[1..] == "0" && "0"[1..] == "";
      assert ReplaceAll(first, '/', "~1") == EscapeChar(s[0]);
      TwoPassesAreOne(s[1..]);
    }
  }

  /** What is escaped, in full: every character by itself. */
  lemma EscapesEachCharacter(c: char, s: string)
    ensures EscapeJsonPointer("") == ""
    ensures EscapeJsonPointer([c] + s) == (if c == '~' then "~0" else if c == '/' then "~1" else [c]) + EscapeJsonPointer(s)
  {
    TwoPassesAreOne([c] + s);
    TwoPassesAreOne(s);
    assert ([c] + s)[1..] == s;
  }

  /** Everything encodes to a token, and reading it back gives the string: the one-pass
      decoder is a left inverse. */
  lemma {:induction false} EncodesToTokens(s: string)
    ensures IsToken(Encode(s)) && Decode(Encode(s)) == s
  {
    if s == "" {
    } else {
      EncodesToTokens(s[1..]);
      var rest := Encode(s[1..]);
      if s[0] == '~' || s[0] == '/' {
        assert Encode(s)[2..] == rest;
      } else {
        assert Encode(s)[1..] == rest;
      }
      assert s == [s[0]] + s[1..];
    }
  }

  /** And a right inverse: every token is the encoding of what it reads as. */
  lemma {:induction false} TokensAreEncodings(t: string)
    requires IsToken(t)
    ensures Encode(Decode(t)) == t
  {
    if t == "" {
    } else if t[0] == '~' {
      TokensAreEncodings(t[2..]);
      assert Decode(t)[1..] == Decode(t[2..]);
      assert t == [t[0], t[1]] + t[2..];
    } else {
      TokensAreEncodings(t[1..]);
      assert Decode(t)[1..] == Decode(t[1..]);
      assert t == [t[0]] + t[1..];
    }
  }

  lemma PlainPassesThrough(c: char, mid: string)
    requires c != '~'
    ensures ReplacePairs([c] + mid, "~0", '~') == [c] + ReplacePairs(mid, "~0", '~')
  {
    assert ([c] + mid)[1..] == mid;
    if |mid| >= 1 {
      assert ([c] + mid)[..2][0] == c;
    }
  }

  lemma SlashPassesThrough(mid: string)
    ensures ReplacePairs(['/'] + mid, "~0", '~') == ['/'] + ReplacePairs(mid, "~0", '~')
  {
    PlainPassesThrough('/', mid);
  }

  /** On tokens, the two passes of the standard read like the one-pass decoder. */
  lemma {:induction false} UnescapeReadsTokens(t: string)
    requires IsToken(t)
    ensures Unescape(t) == Decode(t)
  {
    if t == "" {
    } else if t[0] == '~' {
      UnescapeReadsTokens(t[2..]);
      var mid := ReplacePairs(t[2..], "~1", '/');
      if t[1] == '1' {
        assert t[..2] == "~1";
        SlashPassesThrough(mid);
      } else {
        assert t[..2] == "~0" && t[1..] == ['0'] + t[2..];
        assert ReplacePairs(t[1..], "~1", '/') == ['0'] + mid by {
          if |t[1..]| >= 2 { assert t[1..][0] == '0'; assert t[1..][1..] == t[2..]; }
        }
        assert ReplacePairs(t, "~1", '/') == "~0" + mid;
        assert ("~0" + mid)[..2] == "~0" && ("~0" + mid)[2..] == mid;
      }
    } else {
      UnescapeReadsTokens(t[1..]);
      var mid := ReplacePairs(t[1..], "~1", '/');
      assert ReplacePairs(t, "~1", '/') == [t[0]] + mid by {
        if |t| >= 2 { assert t[..2][0] == t[0]; }
      }
      PlainPassesThrough(t[0], mid);
    }
  }

  /** The code is invertible both ways: escaping any string gives a token that the
      standard's decoder reads back as the string, and every token is the escaping of what
      it reads as. In particular no two strings share a token. */
  lemma EscapingIsInvertible(s: string, t: string)
    ensures IsToken(EscapeJsonPointer(s)) && Unescape(EscapeJsonPointer(s)) == s
    ensures IsToken(t) ==> EscapeJsonPointer(Unescape(t)) == t
    ensures EscapeJsonPointer(s) == EscapeJsonPointer(t) ==> s == t
  {
    TwoPassesAreOne(s);
    TwoPassesAreOne(t);
    EncodesToTokens(s);
    EncodesToTokens(t);
    UnescapeReadsTokens(Encode(s));
    if IsToken(t) {
      UnescapeReadsTokens(t);
      TwoPassesAreOne(Unescape(t));
      TokensAreEncodings(t);
    }
  }

  /** The order of the passes matters, as the doc comment says: the other way round, a
      slash would not come back. */
  lemma OtherOrderFails()
    ensures var swapped := ReplaceAll(ReplaceAll("/", '/', "~1"), '~', "~0");
            swapped == "~01" && Unescape(swapped) == "~1"
  {
    var slash := "/";
    assert slash[1..] == "";
    assert ReplaceAll(slash, '/', "~1") == "~1" + "";
    var once := "~1";
    assert once[1..] == "1" && "1"[1..] == "";
    assert ReplaceAll(once, '~', "~0") == "~01";
    var token := "~01";
    assert token[..2] == "~0" && token[1..] == "01" && token[1..][..2] == "01" && token[1..][1..] == "1" && token[2..] == "1";
    assert ReplacePairs("01", "~1", '/') == "01";
    assert ReplacePairs(token, "~1", '/') == token;
  }
}
