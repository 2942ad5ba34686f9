/**
 Escaping and unescaping of framework/lib/strutils.c.

 A string is what precedes its terminating NUL, so that strlen() of a buffer is the number of
 characters written into it before the NUL.
 */
module StrEscape {
  import opened Wrappers

  const BACKSLASH: char := '\\'
  const NUL: char := '\0'

  // ---------------------------------------------------------------- specification

  // Every character of e gets a backslash in front.
  function Escaped(s: string, e: string): string {
    if s == [] then []
    else (if s[0] in e then [BACKSLASH, s[0]] else [s[0]]) + Escaped(s[1..], e)
  }

  // What a character yields, the backslash before it having been held back.
  function Released(c: char, e: string): string {
    if c in e then [c] else [BACKSLASH, c]
  }

  // A backslash in front of a character of e is dropped, and so is a last one that is not paired.
  function Unescaped(s: string, e: string, held: bool): string {
    if s == [] then []
    else if held then Released(s[0], e) + Unescaped(s[1..], e, false)
    else if s[0] == BACKSLASH then Unescaped(s[1..], e, true)
    else [s[0]] + Unescaped(s[1..], e, false)
  }

  // What gallus_str_unescape() demands of the ends of its argument.
  predicate EndsOk(s: string, e: string)
    requires s != []
  {
    && s[0] !in e
    && (s[|s| - 1] !in e || (|s| >= 2 && s[|s| - 1] in e && s[|s| - 2] == BACKSLASH))
  }

  // The result of gallus_str_unescape(); None is GALLUS_RESULT_INVALID_ARGS.
  function UnescapeResult(s: string, e: string): Option<string> {
    if s == [] || e == [] || !EndsOk(s, e) then None else Some(Unescaped(s, e, false))
  }

  // No run of an odd number of backslashes is followed by a character of e or by the end; odd
  // tells whether an odd number precedes s.
  predicate Paired(s: string, e: string, odd: bool) {
    if s == [] then !odd
    else if s[0] == BACKSLASH then Paired(s[1..], e, !odd)
    else (s[0] in e ==> !odd) && Paired(s[1..], e, false)
  }

  // The strings that survive escaping and unescaping.
  predicate Survives(s: string, e: string)
    requires s != []
  {
    if BACKSLASH in e then s[0] !in e else Paired(s, e, false)
  }

  // ---------------------------------------------------------------- the round trip

  lemma {:induction false} RoundTripPlain(s: string, e: string)
    requires BACKSLASH !in e
    ensures Unescaped(Escaped(s, e), e, false) == s <==> Paired(s, e, false)
    ensures Unescaped(Escaped(s, e), e, true) == [BACKSLASH] + s <==> Paired(s, e, true)
    decreases |s|
  {
    if s != [] {
      var c, rest := s[0], s[1..];
      var t := Escaped(rest, e);
      RoundTripPlain(rest, e);
      assert s == [c] + rest;
      Prefixes([c], Unescaped(t, e, false), rest);
      if c == BACKSLASH {
        assert Escaped(s, e)[0] == BACKSLASH && Escaped(s, e)[1..] == t;
        assert [BACKSLASH] + s == [BACKSLASH, BACKSLASH] + rest;
        Prefixes([BACKSLASH, BACKSLASH], Unescaped(t, e, false), rest);
      } else if c in e {
        assert Escaped(s, e) == [BACKSLASH, c] + t;
        assert Escaped(s, e)[1..] == [c] + t && ([c] + t)[1..] == t;
        assert Unescaped(Escaped(s, e), e, true)[1] == BACKSLASH && ([BACKSLASH] + s)[1] == c;
      } else {
        assert Escaped(s, e)[0] == c && Escaped(s, e)[1..] == t;
        assert [BACKSLASH] + s == [BACKSLASH, c] + rest;
        Prefixes([BACKSLASH, c], Unescaped(t, e, false), rest);
      }
    }
  }

  lemma Prefixes(p: string, x: string, y: string)
    ensures p + x == p + y <==> x == y
  {
    if p + x == p + y {
      assert x == (p + x)[|p|..] && y == (p + y)[|p|..];
    }
  }

  lemma UnescapedPair(c: char, t: string, e: string)
    ensures Unescaped([BACKSLASH, c] + t, e, false) == Released(c, e) + Unescaped(t, e, false)
  {
    var s := [BACKSLASH, c] + t;
    assert s[1..] == [c] + t && s[1..][1..] == t;
  }

  lemma UnescapedPlain(c: char, t: string, e: string)
    requires c != BACKSLASH
    ensures Unescaped([c] + t, e, false) == [c] + Unescaped(t, e, false)
  {
    assert ([c] + t)[1..] == t;
  }

  lemma {:induction false} RoundTripBackslash(s: string, e: string)
    requires BACKSLASH in e
    ensures Unescaped(Escaped(s, e), e, false) == s
    decreases |s|
  {
    if s != [] {
      var c, rest := s[0], s[1..];
      var t := Escaped(rest, e);
      RoundTripBackslash(rest, e);
      if c in e { UnescapedPair(c, t, e); } else { UnescapedPlain(c, t, e); }
      assert s == [c] + rest;
    }
  }

  lemma {:induction false} EscapedEnds(s: string, e: string)
    requires s != []
    ensures var t := Escaped(s, e);
            && |t| >= |s|
            && t[0] == (if s[0] in e then BACKSLASH else s[0])
            && t[|t| - 1] == s[|s| - 1]
            && (t[|t| - 1] in e ==> |t| >= 2 && t[|t| - 2] == BACKSLASH)
    decreases |s|
  {
    if |s| > 1 { EscapedEnds(s[1..], e); }
  }

  // Unescaping undoes escaping exactly for the strings that survive.  Without a backslash among
  // the characters to escape, it fails at most on backslashes of the string itself; with one, it
  // refuses exactly what escaping makes begin with a backslash.
  lemma RoundTrip(s: string, e: string)
    requires s != [] && e != []
    ensures UnescapeResult(Escaped(s, e), e) == Some(s) <==> Survives(s, e)
    ensures BACKSLASH !in e ==> UnescapeResult(Escaped(s, e), e).Some?
    ensures BACKSLASH in e && !Survives(s, e) ==> UnescapeResult(Escaped(s, e), e) == None
  {
    EscapedEnds(s, e);
    if BACKSLASH in e { RoundTripBackslash(s, e); } else { RoundTripPlain(s, e); }
  }

  lemma {:induction false} NoBackslashPaired(s: string, e: string)
    requires BACKSLASH !in s
    ensures Paired(s, e, false)
  {
    if s != [] { NoBackslashPaired(s[1..], e); }
  }

  // Strings without a backslash survive any escaping that leaves the backslash alone.
  lemma RoundTripClean(s: string, e: string)
    requires s != [] && e != [] && BACKSLASH !in s && BACKSLASH !in e
    ensures UnescapeResult(Escaped(s, e), e) == Some(s)
  {
    RoundTrip(s, e);
    NoBackslashPaired(s, e);
  }

  // A backslash in front of a quote does not survive.
  lemma LostBackslash()
    ensures UnescapeResult(Escaped("\\\"", "\""), "\"") == Some("\\\\\"")
  {
    var s, e := "\\\"", "\"";
    assert s[1..] == "\"" && s[1..][1..] == "";
    assert Escaped(s[1..], e) == "\\\"";
    assert Escaped(s, e) == "\\\\\"";
    var t := Escaped(s, e);
    assert t[1..] == "\\\"" && t[1..][1..] == "\"" && t[1..][1..][1..] == "";
    assert Unescaped("\"", e, false) == "\"";
    assert Unescaped(t, e, false) == Released(BACKSLASH, e) + "\"" == "\\\\\"";
    assert EndsOk(t, e);
    assert UnescapeResult(t, e) == Some(Unescaped(t, e, false));
  }

  // ---------------------------------------------------------------- what is refused

  // A string that begins with a character of e is refused.  Of the others, one is refused on account
  // of its last character if and only if that is in e and has no backslash in front.
  lemma LastRefusedIff(x: string, c: char, e: string)
    requires x != [] && e != [] && x[0] !in e
    ensures UnescapeResult(x + [c], e) == None <==> c in e && x[|x| - 1] != BACKSLASH
  {
    var s := x + [c];
    assert s[0] == x[0] && s[|s| - 1] == c && s[|s| - 2] == x[|x| - 1];
  }

  lemma FirstRefused(c: char, x: string, e: string)
    requires e != []
    ensures c in e ==> UnescapeResult([c] + x, e) == None
    ensures c !in e ==> UnescapeResult([c], e).Some?
    ensures UnescapeResult([], e) == None && UnescapeResult(x, []) == None
  {
    assert ([c] + x)[0] == c;
  }

  // ---------------------------------------------------------------- any string

  lemma {:induction false} TextKept(x: string, rest: string, e: string)
    requires BACKSLASH !in x
    ensures Unescaped(x + rest, e, false) == x + Unescaped(rest, e, false)
  {
    if x == [] {
      assert x + rest == rest;
    } else {
      TextKept(x[1..], rest, e);
      UnescapedPlain(x[0], x[1..] + rest, e);
      assert x + rest == [x[0]] + (x[1..] + rest) && x == [x[0]] + x[1..];
    }
  }

  // Text without a backslash comes out as it is.  A backslash after it is dropped at the end of the
  // string and in front of a character of e, and kept with the character after it otherwise.
  lemma UnescapedParts(x: string, c: char, rest: string, e: string)
    requires BACKSLASH !in x
    ensures Unescaped(x, e, false) == x && Unescaped(x + [BACKSLASH], e, false) == x
    ensures Unescaped(x + [BACKSLASH, c] + rest, e, false)
         == x + (if c in e then [c] else [BACKSLASH, c]) + Unescaped(rest, e, false)
  {
    TextKept(x, [], e);
    TextKept(x, [BACKSLASH], e);
    TextKept(x, [BACKSLASH, c] + rest, e);
    assert x + [] == x && Unescaped([BACKSLASH][1..], e, true) == [];
    UnescapedPair(c, rest, e);
    Append(x, [BACKSLASH, c], rest);
    Append(x, Released(c, e), Unescaped(rest, e, false));
  }

  // ---------------------------------------------------------------- the code

  // The first loop of gallus_str_escape(): the characters left alone, and twice the others.
  method CountEscapes(s: string, e: string) returns (len: nat, escapesLen: nat)
    ensures len + escapesLen == |Escaped(s, e)|
    ensures escapesLen == 0 <==> Escaped(s, e) == s
  {
    len, escapesLen := 0, 0;
    var i := 0;
    while i < |s|
      invariant i <= |s| && len + escapesLen + |Escaped(s[i..], e)| == |Escaped(s, e)|
      invariant len + escapesLen >= i && (escapesLen == 0 <==> len + escapesLen == i)
      invariant escapesLen == 0 ==> forall j :: 0 <= j < i ==> s[j] !in e
    {
      assert s[i..][1..] == s[i + 1..];
      if s[i] !in e {
        len := len + 1;
      } else {
        escapesLen := escapesLen + 2;
      }
      i := i + 1;
    }
    if escapesLen == 0 { NothingEscaped(s, e); }
  }

  lemma {:induction false} NothingEscaped(s: string, e: string)
    requires forall j :: 0 <= j < |s| ==> s[j] !in e
    ensures Escaped(s, e) == s
  {
    if s != [] { NothingEscaped(s[1..], e); }
  }

  // gallus_str_escape(): None is GALLUS_RESULT_INVALID_ARGS.  The buffer has the size that the
  // first loop computes.
  method Escape(s: string, e: string) returns (out: Option<string>, isEscaped: bool)
    ensures out == if s == [] || e == [] then None else Some(Escaped(s, e))
    ensures isEscaped <==> out.Some? && out.value != s
  {
    out, isEscaped := None, false;
    if s != [] && e != [] {
      var len, escapesLen := CountEscapes(s, e);
      if escapesLen == 0 {
        out := Some(s);
      } else {
        var buf := new char[len + escapesLen + 1](_ => NUL);
        WriteEscaped(s, e, buf);
        buf[len + escapesLen] := NUL;
        out, isEscaped := Some(buf[..len + escapesLen]), true;
      }
    }
  }

  lemma EscapedFrom(s: string, e: string, i: nat)
    requires i < |s|
    ensures Escaped(s[i..], e) == (if s[i] in e then [BACKSLASH, s[i]] else [s[i]]) + Escaped(s[i + 1..], e)
  {
    assert s[i..][1..] == s[i + 1..];
  }

  lemma UnescapedFrom(s: string, e: string, held: bool, i: nat)
    requires i < |s|
    ensures held ==> Unescaped(s[i..], e, true) == Released(s[i], e) + Unescaped(s[i + 1..], e, false)
    ensures !held && s[i] == BACKSLASH ==> Unescaped(s[i..], e, false) == Unescaped(s[i + 1..], e, true)
    ensures !held && s[i] != BACKSLASH ==> Unescaped(s[i..], e, false) == [s[i]] + Unescaped(s[i + 1..], e, false)
  {
    assert s[i..][1..] == s[i + 1..];
  }

  lemma Append(x: string, y: string, z: string)
    ensures (x + y) + z == x + (y + z)
  {
  }

  // The character c, escaped if it is in e.
  method WriteChar(c: char, e: string, buf: array<char>, p: nat) returns (p': nat)
    requires p + (if c in e then 2 else 1) <= buf.Length
    modifies buf
    ensures p' == p + if c in e then 2 else 1
    ensures buf[..p'] == old(buf[..p]) + if c in e then [BACKSLASH, c] else [c]
  {
    if c !in e {
      buf[p] := c;
      p' := p + 1;
    } else {
      buf[p] := BACKSLASH;
      p' := p + 1;
      buf[p'] := c;
      p' := p' + 1;
    }
  }

  method WriteEscaped(s: string, e: string, buf: array<char>)
    requires buf.Length == |Escaped(s, e)| + 1
    modifies buf
    ensures buf[..|Escaped(s, e)|] == Escaped(s, e)
  {
    var i, p := 0, 0;
    while i < |s|
      invariant i <= |s| && p + |Escaped(s[i..], e)| == |Escaped(s, e)|
      invariant buf[..p] + Escaped(s[i..], e) == Escaped(s, e)
    {
      EscapedFrom(s, e, i);
      Append(buf[..p], if s[i] in e then [BACKSLASH, s[i]] else [s[i]], Escaped(s[i + 1..], e));
      p := WriteChar(s[i], e, buf, p);
      i := i + 1;
    }
  }

  // gallus_str_unescape(): ret is None for GALLUS_RESULT_INVALID_ARGS, and the length otherwise, never
  // above that of the input; out is *retptr, NULL also for an empty result.
  method Unescape(s: string, e: string) returns (ret: Option<nat>, out: Option<string>)
    ensures var r := UnescapeResult(s, e);
            && ret == (if r.Some? then Some(|r.value|) else None)
            && out == (if r.Some? && r.value != [] then r else None)
    ensures ret.Some? ==> ret.value <= |s|
  {
    ret, out := None, None;
    if s != [] && e != [] {
      var l := |s|;
      if s[0] !in e && (s[l - 1] !in e || (l >= 2 && s[l - 1] in e && s[l - 2] == BACKSLASH)) {
        var buf := new char[l + 1](_ => NUL);
        var p := WriteUnescaped(s, e, buf);
        buf[p] := NUL;
        ret := Some(p);
        if p > 0 {
          out := Some(buf[..p]);
        }
      }
    }
  }

  // The character after a backslash.
  method WriteReleased(c: char, e: string, buf: array<char>, p: nat) returns (p': nat)
    requires p + 2 <= buf.Length
    modifies buf
    ensures p' == p + |Released(c, e)| && buf[..p'] == old(buf[..p]) + Released(c, e)
  {
    if c in e {
      buf[p] := c;
      p' := p + 1;
    } else if c == BACKSLASH {
      buf[p] := BACKSLASH;
      buf[p + 1] := BACKSLASH;
      p' := p + 2;
    } else {
      buf[p] := BACKSLASH;
      buf[p + 1] := c;
      p' := p + 2;
    }
  }

  method WriteUnescaped(s: string, e: string, buf: array<char>) returns (p: nat)
    requires buf.Length == |s| + 1
    modifies buf
    ensures p <= |s| && buf[..p] == Unescaped(s, e, false)
  {
    p := 0;
    var i, gotBs := 0, false;
    while i < |s|
      invariant i <= |s| && p + (if gotBs then 1 else 0) <= i
      invariant buf[..p] + Unescaped(s[i..], e, gotBs) == Unescaped(s, e, false)
    {
      var c := s[i];
      UnescapedFrom(s, e, gotBs, i);
      ghost var before := buf[..p];
      if gotBs {
        Append(before, Released(c, e), Unescaped(s[i + 1..], e, false));
        p := WriteReleased(c, e, buf, p);
        gotBs := false;
      } else if c == BACKSLASH {
        gotBs := true;
      } else {
        Append(before, [c], Unescaped(s[i + 1..], e, false));
        buf[p] := c;
        p := p + 1;
        assert buf[..p] == before + [c];
      }
      i := i + 1;
    }
  }
}
