/** The `Authorization: Bearer <token>` parse that the server's verify_auth and
    logout share: Python's `str.split()` with no separator, then a
    case-insensitive match of the first part against "bearer". */
module AuthHeader {
  import opened Optional

  /** Python's `str.isspace` for one character: the ASCII whitespace
      characters, the separators U+001C..U+001F, and the Unicode space and
      line/paragraph separators. The printable ASCII characters other than
      the space are never whitespace; the space, tab, line feed and carriage
      return always are. */
  predicate IsSpace(c: char): (b: bool)
    ensures '!' <= c <= '~' ==> !b
    ensures c == ' ' || c == '\t' || c == '\n' || c == '\r' ==> b
  {
    || c == ' '
    || ('\t' <= c <= '\r')
    || ('\U{1c}' <= c <= '\U{1f}')
    || c == '\U{85}'
    || c == '\U{a0}'
    || c == '\U{1680}'
    || ('\U{2000}' <= c <= '\U{200a}')
    || c == '\U{2028}'
    || c == '\U{2029}'
    || c == '\U{202f}'
    || c == '\U{205f}'
    || c == '\U{3000}'
  }

  /** No character of `s` is whitespace. */
  predicate NoSpace(s: string) {
    forall i :: 0 <= i < |s| ==> !IsSpace(s[i])
  }

  /** What `str.split()` can return as one part: a non-empty run without
      whitespace. */
  predicate IsWord(w: string) {
    |w| > 0 && NoSpace(w)
  }

  /** `s.split()`: the maximal runs of non-whitespace characters of `s`, in
      order; leading, trailing and repeated whitespace produce no part. */
  function Split(s: string): (parts: seq<string>)
    ensures forall i :: 0 <= i < |parts| ==> IsWord(parts[i])
  {
    SplitFrom(s, "")
  }

  /** Splits `s` when the run `word` has already been read in front of it. */
  function SplitFrom(s: string, word: string): (parts: seq<string>)
    requires NoSpace(word)
    ensures forall i :: 0 <= i < |parts| ==> IsWord(parts[i])
    decreases |s|
  {
    if s == [] then
      (if word == [] then [] else [word])
    else if IsSpace(s[0]) then
      (if word == [] then SplitFrom(s[1..], []) else [word] + SplitFrom(s[1..], []))
    else
      SplitFrom(s[1..], word + [s[0]])
  }

  /** The parts written back with one space between each: the shape of a
      header such as "Bearer <token>". */
  function JoinSpaced(parts: seq<string>): string {
    if |parts| == 0 then ""
    else if |parts| == 1 then parts[0]
    else parts[0] + " " + JoinSpaced(parts[1..])
  }

  /** A run without whitespace in front of the rest joins the word being read. */
  lemma {:induction false} SplitFromRun(run: string, rest: string, word: string)
    requires NoSpace(run) && NoSpace(word)
    ensures NoSpace(word + run)
    ensures SplitFrom(run + rest, word) == SplitFrom(rest, word + run)
    decreases |run|
  {
    if run == [] {
      assert run + rest == rest;
      assert word + run == word;
    } else {
      assert (run + rest)[0] == run[0];
      assert (run + rest)[1..] == run[1..] + rest;
      assert NoSpace(word + [run[0]]);
      SplitFromRun(run[1..], rest, word + [run[0]]);
      assert word + [run[0]] + run[1..] == word + run;
    }
  }

  /** Splitting undoes joining: `split()` recovers every list of words. */
  lemma {:induction false} SplitJoin(parts: seq<string>)
    requires forall i :: 0 <= i < |parts| ==> IsWord(parts[i])
    ensures Split(JoinSpaced(parts)) == parts
    decreases |parts|
  {
    if |parts| == 1 {
      SplitFromRun(parts[0], "", "");
      assert parts[0] + "" == parts[0];
      assert "" + parts[0] == parts[0];
    } else if |parts| > 1 {
      var w, tail := parts[0], JoinSpaced(parts[1..]);
      assert JoinSpaced(parts) == w + (" " + tail);
      SplitFromRun(w, " " + tail, "");
      assert "" + w == w;
      assert (" " + tail)[1..] == tail;
      assert SplitFrom(" " + tail, w) == [w] + SplitFrom(tail, "");
      SplitJoin(parts[1..]);
      assert parts == [w] + parts[1..];
    }
  }

  /** Every character of `s` is whitespace (the empty string included). */
  predicate AllSpace(s: string) {
    forall i :: 0 <= i < |s| ==> IsSpace(s[i])
  }

  /** `seps[0] + parts[0] + seps[1] + ... + parts[n-1] + seps[n]`: words with
      whitespace around and between them. */
  function Interleave(seps: seq<string>, parts: seq<string>): string
    requires |seps| == |parts| + 1
    decreases |parts|
  {
    if |parts| == 0 then seps[0]
    else seps[0] + parts[0] + Interleave(seps[1..], parts[1..])
  }

  /** Whitespace in front of the rest, with no word being read, produces no
      part. */
  lemma {:induction false} SplitFromSpaces(sp: string, rest: string)
    requires AllSpace(sp)
    ensures SplitFrom(sp + rest, "") == SplitFrom(rest, "")
    decreases |sp|
  {
    if sp != [] {
      assert (sp + rest)[0] == sp[0];
      assert (sp + rest)[1..] == sp[1..] + rest;
      SplitFromSpaces(sp[1..], rest);
    } else {
      assert sp + rest == rest;
    }
  }

  /** `split()` in general: whatever whitespace surrounds the words, and
      however long the non-empty runs of whitespace between them, the parts
      are exactly the words. */
  lemma {:induction false} SplitSeparated(seps: seq<string>, parts: seq<string>)
    requires |seps| == |parts| + 1
    requires forall i :: 0 <= i < |seps| ==> AllSpace(seps[i])
    requires forall i :: 0 < i < |parts| ==> seps[i] != ""
    requires forall i :: 0 <= i < |parts| ==> IsWord(parts[i])
    ensures Split(Interleave(seps, parts)) == parts
    decreases |parts|
  {
    if |parts| == 0 {
      SplitFromSpaces(seps[0], "");
      assert seps[0] + "" == seps[0];
    } else {
      var w, tail := parts[0], Interleave(seps[1..], parts[1..]);
      assert Interleave(seps, parts) == seps[0] + (w + tail);
      SplitFromSpaces(seps[0], w + tail);
      SplitFromRun(w, tail, "");
      assert "" + w == w;
      // Here Split(Interleave(seps, parts)) == SplitFrom(tail, w).
      if |parts| == 1 {
        assert tail == seps[1];
        if seps[1] != "" {
          assert SplitFrom(tail, w) == [w] + SplitFrom(tail[1..], "");
          SplitFromSpaces(tail[1..], "");
          assert tail[1..] + "" == tail[1..];
        }
        assert parts == [w];
      } else {
        var sp, next := seps[1], parts[1] + Interleave(seps[2..], parts[2..]);
        assert seps[1..][1..] == seps[2..] && parts[1..][1..] == parts[2..];
        assert tail == sp + next;
        assert SplitFrom(tail, w) == [w] + SplitFrom(tail[1..], "");
        assert tail[1..] == sp[1..] + next;
        SplitFromSpaces(sp[1..], next);
        SplitFromSpaces(sp, next);
        SplitSeparated(seps[1..], parts[1..]);
        assert parts == [w] + parts[1..];
      }
    }
  }

  /** Python's `str.lower` on one character, for the ASCII letters. */
  function LowerChar(c: char): char {
    if 'A' <= c <= 'Z' then (c as int + 32) as char else c
  }

  /** `s.lower()`. Only ASCII letters are mapped: for the comparison with
      "bearer" this is exact, since no other character lower-cases to one of
      its letters. */
  function Lower(s: string): (r: string)
    ensures |r| == |s|
    ensures forall i :: 0 <= i < |s| ==> r[i] == LowerChar(s[i])
  {
    seq(|s|, i requires 0 <= i < |s| => LowerChar(s[i]))
  }

  /** The scheme word that verify_auth and logout accept, in any letter case. */
  predicate IsBearer(scheme: string) {
    Lower(scheme) == "bearer"
  }

  /** The schemes accepted are exactly the six-letter words that spell
      "bearer" with each letter in either case. */
  lemma IsBearerCases(s: string)
    ensures IsBearer(s) <==> |s| == 6 && forall i :: 0 <= i < 6 ==> s[i] == "bearer"[i] || s[i] == "BEARER"[i]
  {
    if |s| == 6 && forall i :: 0 <= i < 6 ==> s[i] == "bearer"[i] || s[i] == "BEARER"[i] {
      assert forall i :: 0 <= i < 6 ==> Lower(s)[i] == "bearer"[i];
    }
  }

  /** A scheme that matches "bearer" is itself a word. */
  lemma BearerIsWord(scheme: string)
    requires IsBearer(scheme)
    ensures IsWord(scheme)
  {
  }

  /** The token of a well-formed Bearer header: absent when the header is
      missing or empty, when it does not split into exactly two parts, or when
      the first part is not "bearer" in some letter case. */
  function BearerToken(authorization: Option<string>): (token: Option<string>)
    ensures token.Some? ==> authorization.Some? && authorization.value != ""
    ensures token.Some? ==> IsWord(token.value)
  {
    if authorization.None? || authorization.value == "" then None
    else
      var parts := Split(authorization.value);
      if |parts| != 2 || Lower(parts[0]) != "bearer" then None
      else Some(parts[1])
  }

  /** The header a client builds, scheme then one space then the token, parses
      back to exactly that token. */
  lemma BearerTokenOfHeader(scheme: string, token: string)
    requires IsBearer(scheme) && IsWord(token)
    ensures BearerToken(Some(scheme + " " + token)) == Some(token)
  {
    BearerIsWord(scheme);
    SplitJoin([scheme, token]);
    assert JoinSpaced([scheme, token]) == scheme + " " + token;
  }

  /** A header with any whitespace around it and any non-empty run of
      whitespace between a "bearer" scheme and a one-word token yields that
      token. */
  lemma BearerTokenSpaced(lead: string, scheme: string, gap: string, token: string, trail: string)
    requires AllSpace(lead) && AllSpace(gap) && AllSpace(trail) && gap != ""
    requires IsBearer(scheme) && IsWord(token)
    ensures BearerToken(Some(lead + scheme + gap + token + trail)) == Some(token)
  {
    BearerIsWord(scheme);
    var seps, parts := [lead, gap, trail], [scheme, token];
    assert Interleave(seps[2..], parts[2..]) == trail;
    assert Interleave(seps[1..], parts[1..]) == gap + token + trail;
    assert Interleave(seps, parts) == lead + scheme + gap + token + trail;
    SplitSeparated(seps, parts);
  }

  /** Words separated by whitespace are refused unless there are exactly two
      of them: a token that itself contains whitespace never gets through. */
  lemma BearerTokenNeedsTwoParts(seps: seq<string>, parts: seq<string>)
    requires |seps| == |parts| + 1
    requires forall i :: 0 <= i < |seps| ==> AllSpace(seps[i])
    requires forall i :: 0 < i < |parts| ==> seps[i] != ""
    requires forall i :: 0 <= i < |parts| ==> IsWord(parts[i])
    requires |parts| != 2
    ensures BearerToken(Some(Interleave(seps, parts))) == None
  {
    SplitSeparated(seps, parts);
  }

}
