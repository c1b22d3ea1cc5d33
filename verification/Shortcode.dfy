/** Base62 codes drawn by rejection sampling, and the shape of custom aliases. */
module Shortcode {
  import opened Domain

  type byte = n: nat | n < 256

  type pos = n: nat | n >= 1 witness 1

  const ALPHABET := "0123456789" + "ABCDEFGHIJKLMNOPQRSTUVWXYZ" + "abcdefghijklmnopqrstuvwxyz"
  const BASE := 62

  // The largest multiple of BASE that fits in a byte: bytes from here up are rejected.
  const MAX_UNBIASED := (256 / 62) * 62

  function Digit(i: nat): char
    requires i < BASE
  {
    if i < 10 then '0' + i as char
    else if i < 36 then 'A' + (i - 10) as char
    else 'a' + (i - 36) as char
  }

  function Rank(c: char): nat {
    if '0' <= c <= '9' then (c - '0') as nat
    else if 'A' <= c <= 'Z' then (c - 'A') as nat + 10
    else if 'a' <= c <= 'z' then (c - 'a') as nat + 36
    else BASE
  }

  lemma AlphabetIsDigits(i: nat)
    requires i < BASE
    ensures |ALPHABET| == BASE && ALPHABET[i] == Digit(i) && Rank(Digit(i)) == i
  {
  }

  lemma RankInverse(c: char)
    requires Rank(c) < BASE
    ensures Digit(Rank(c)) == c
  {
  }

  predicate IsBase62(s: string) {
    forall i :: 0 <= i < |s| ==> Rank(s[i]) < BASE
  }

  function Map(b: byte): char {
    Digit(b % BASE)
  }

  // The accepted bytes of a stream, mapped through the alphabet.
  function Accepted(bytes: seq<byte>): string {
    if bytes == [] then ""
    else Accepted(bytes[..|bytes| - 1]) + Kept(bytes[|bytes| - 1])
  }

  function Kept(b: byte): string {
    if b >= MAX_UNBIASED then "" else [Map(b)]
  }

  function Joined(buffers: seq<seq<byte>>): seq<byte> {
    if buffers == [] then [] else Joined(buffers[..|buffers| - 1]) + buffers[|buffers| - 1]
  }

  lemma {:induction false} AcceptedConcat(a: seq<byte>, b: seq<byte>)
    ensures Accepted(a + b) == Accepted(a) + Accepted(b)
  {
    if b == [] {
      assert a + b == a && Accepted(b) == "";
    } else {
      var front, last := b[..|b| - 1], b[|b| - 1];
      assert (a + b)[..|a + b| - 1] == a + front;
      AcceptedConcat(a, front);
      assert Accepted(a) + (Accepted(front) + Kept(last)) == Accepted(a) + Accepted(front) + Kept(last);
    }
  }

  lemma {:induction false} JoinedPrefix(buffers: seq<seq<byte>>, n: nat)
    requires n <= |buffers|
    ensures Joined(buffers[..n]) <= Joined(buffers)
    ensures Accepted(Joined(buffers[..n])) <= Accepted(Joined(buffers))
  {
    if n == |buffers| {
      assert buffers[..n] == buffers;
    } else {
      var front := buffers[..|buffers| - 1];
      JoinedPrefix(front, n);
      assert front[..n] == buffers[..n];
      AcceptedConcat(Joined(front), buffers[|buffers| - 1]);
    }
  }

  // What Generate owes for the buffers it is offered: the first `length` accepted bytes of their
  // concatenation. Running out of buffers is a failed read.
  function Drawn(length: nat, buffers: seq<seq<byte>>): Result<string> {
    var all := Accepted(Joined(buffers));
    if |all| >= length then Ok(all[..length]) else Err(Backend)
  }

  // The inner loop: keep the accepted bytes of one buffer until the code is full. `seen` is what
  // earlier reads delivered.
  method Fill(out: array<char>, start: nat, buf: seq<byte>, ghost seen: seq<byte>) returns (filled: nat)
    requires start < out.Length
    requires out[..start] == Accepted(seen)
    modifies out
    ensures filled <= out.Length
    ensures out[..filled] <= Accepted(seen + buf)
    ensures filled < out.Length ==> out[..filled] == Accepted(seen + buf)
  {
    filled := start;
    assert seen + buf[..0] == seen;
    for i := 0 to |buf|
      invariant filled < out.Length
      invariant out[..filled] == Accepted(seen + buf[..i])
    {
      var b := buf[i];
      AcceptedStep(seen, buf, i);
      if b < MAX_UNBIASED {
        AlphabetIsDigits(b % BASE);
        out[filled] := ALPHABET[b % BASE];
        filled := filled + 1;
        assert out[..filled] == Accepted(seen + buf[..i]) + [Map(b)];
        if filled == out.Length {
          return;
        }
      }
    }
    assert buf[..|buf|] == buf;
  }

  lemma AcceptedStep(seen: seq<byte>, buf: seq<byte>, i: nat)
    requires i < |buf|
    ensures Accepted(seen + buf[..i + 1]) == Accepted(seen + buf[..i]) + Kept(buf[i])
    ensures Accepted(seen + buf[..i + 1]) <= Accepted(seen + buf)
  {
    assert (seen + buf[..i + 1])[..|seen| + i] == seen + buf[..i];
    assert seen + buf == (seen + buf[..i + 1]) + buf[i + 1..];
    AcceptedConcat(seen + buf[..i + 1], buf[i + 1..]);
  }

  class Generator {
    const length: pos

    constructor (length: int)
      ensures this.length == if length < 1 then 1 else length
    {
      this.length := if length < 1 then 1 else length;
    }

    /** `buffers[k]` is what the k-th read of the random source puts in the buffer. */
    method Generate(buffers: seq<seq<byte>>) returns (r: Result<string>)
      requires forall k :: 0 <= k < |buffers| ==> |buffers[k]| == 2 * length
      ensures r == Drawn(length, buffers)
      ensures r.Ok? <==> |Accepted(Joined(buffers))| >= length
      ensures r.Ok? ==> |r.value| == length && r.value <= Accepted(Joined(buffers)) && IsBase62(r.value)
    {
      var out := new char[length];
      var filled: nat, n: nat := 0, 0;
      while filled < length
        invariant n <= |buffers| && filled <= length == out.Length
        invariant out[..filled] <= Accepted(Joined(buffers[..n]))
        invariant filled < length ==> out[..filled] == Accepted(Joined(buffers[..n]))
        decreases |buffers| - n
      {
        if n == |buffers| {
          assert buffers[..n] == buffers;
          return Err(Backend);
        }
        assert buffers[..n + 1][..n] == buffers[..n];
        filled := Fill(out, filled, buffers[n], Joined(buffers[..n]));
        n := n + 1;
      }
      JoinedPrefix(buffers, n);
      assert out[..filled] == out[..];
      AcceptedIsBase62(Joined(buffers));
      PrefixSlice(out[..], Accepted(Joined(buffers)), length);
      return Ok(out[..]);
    }
  }

  // Buffer boundaries do not matter: only the concatenation of the buffers does.
  lemma BoundariesDoNotMatter(length: nat, buffers: seq<seq<byte>>, others: seq<seq<byte>>)
    requires Joined(buffers) <= Joined(others) && Drawn(length, buffers).Ok?
    ensures Drawn(length, others) == Drawn(length, buffers)
  {
    var all := Joined(others);
    var n := |Joined(buffers)|;
    assert all == all[..n] + all[n..] && all[..n] == Joined(buffers);
    AcceptedConcat(all[..n], all[n..]);
    PrefixSlice(Accepted(Joined(buffers)), Accepted(all), length);
  }

  lemma PrefixSlice(a: string, b: string, n: nat)
    requires a <= b && n <= |a|
    ensures b[..n] == a[..n]
  {
    assert b[..|a|] == a;
  }

  lemma {:induction false} AcceptedIsBase62(bytes: seq<byte>)
    ensures IsBase62(Accepted(bytes))
  {
    if bytes != [] {
      AcceptedIsBase62(bytes[..|bytes| - 1]);
      AlphabetIsDigits(bytes[|bytes| - 1] % BASE);
    }
  }

  // --- uniformity: each code of n characters has the same number of accepted preimages ---

  function Pow(base: nat, n: nat): nat {
    if n == 0 then 1 else base * Pow(base, n - 1)
  }

  predicate IsPreimage(bytes: seq<byte>, code: string) {
    |bytes| == |code| && Accepted(bytes) == code
  }

  // The four accepted bytes behind one character.
  function Bytes(c: char): set<byte>
    requires Rank(c) < BASE
  {
    {Rank(c), Rank(c) + 62, Rank(c) + 124, Rank(c) + 186}
  }

  lemma ByteClass(r: nat, b: byte)
    requires r < BASE
    ensures b == r || b == r + 62 || b == r + 124 || b == r + 186 <==> b < MAX_UNBIASED && b % BASE == r
  {
    var q := b / BASE;
    assert b == BASE * q + b % BASE && 0 <= q <= 4;
  }

  lemma BytesAreExact(c: char, b: byte)
    requires Rank(c) < BASE
    ensures b in Bytes(c) <==> Kept(b) == [c]
    ensures |Bytes(c)| == 4
  {
    ByteClass(Rank(c), b);
    AlphabetIsDigits(b % BASE);
    RankInverse(c);
    BytesAreFour(Rank(c));
  }

  lemma BytesAreFour(r: nat)
    requires r < BASE
    ensures |{r, r + 62, r + 124, r + 186}| == 4
  {
  }

  function Extended(heads: set<seq<byte>>, lasts: set<byte>): set<seq<byte>> {
    set h, b | h in heads && b in lasts :: h + [b]
  }

  lemma ExtendedElement(heads: set<seq<byte>>, lasts: set<byte>, x: seq<byte>)
    ensures x in Extended(heads, lasts) <==> x != [] && x[..|x| - 1] in heads && x[|x| - 1] in lasts
  {
    if x != [] && x[..|x| - 1] in heads && x[|x| - 1] in lasts {
      assert x == x[..|x| - 1] + [x[|x| - 1]];
    }
    if x in Extended(heads, lasts) {
      var h, b :| h in heads && b in lasts && x == h + [b];
      assert x[..|x| - 1] == h && x[|x| - 1] == b;
    }
  }

  function Preimages(code: string): set<seq<byte>>
    requires IsBase62(code)
  {
    if code == "" then {[]}
    else Extended(Preimages(code[..|code| - 1]), Bytes(code[|code| - 1]))
  }

  lemma {:induction false} AcceptedShorter(bytes: seq<byte>)
    ensures |Accepted(bytes)| <= |bytes|
  {
    if bytes != [] {
      AcceptedShorter(bytes[..|bytes| - 1]);
    }
  }

  lemma {:induction false} PreimagesAreExact(code: string, bytes: seq<byte>)
    requires IsBase62(code)
    ensures bytes in Preimages(code) <==> IsPreimage(bytes, code)
  {
    if code != "" {
      var cs, c := code[..|code| - 1], code[|code| - 1];
      ExtendedElement(Preimages(cs), Bytes(c), bytes);
      if bytes != [] {
        var bs, b := bytes[..|bytes| - 1], bytes[|bytes| - 1];
        assert code == cs + [c];
        PreimagesAreExact(cs, bs);
        BytesAreExact(c, b);
        AcceptedShorter(bs);
      }
    }
  }

  lemma {:induction false} ExtendedSize(heads: set<seq<byte>>, lasts: set<byte>)
    ensures |Extended(heads, lasts)| == |heads| * |lasts|
  {
    if heads == {} {
      assert Extended(heads, lasts) == {};
    } else {
      var h :| h in heads;
      var rest := heads - {h};
      ExtendedSize(rest, lasts);
      ExtendedByOne(h, lasts);
      ExtendedSplit(rest, h, lasts);
      assert heads == rest + {h} && |heads| == |rest| + 1;
    }
  }

  lemma ExtendedSplit(rest: set<seq<byte>>, h: seq<byte>, lasts: set<byte>)
    requires h !in rest
    ensures |Extended(rest + {h}, lasts)| == |Extended(rest, lasts)| + |Extended({h}, lasts)|
  {
    var others, mine := Extended(rest, lasts), Extended({h}, lasts);
    forall x
      ensures x in Extended(rest + {h}, lasts) <==> x in others || x in mine
      ensures !(x in others && x in mine)
    {
      ExtendedElement(rest + {h}, lasts, x);
      ExtendedElement(rest, lasts, x);
      ExtendedElement({h}, lasts, x);
    }
    assert Extended(rest + {h}, lasts) == others + mine && others !! mine;
  }

  lemma {:induction false} ExtendedByOne(h: seq<byte>, lasts: set<byte>)
    ensures |Extended({h}, lasts)| == |lasts|
  {
    if lasts == {} {
      assert Extended({h}, lasts) == {};
    } else {
      var b :| b in lasts;
      var rest := lasts - {b};
      ExtendedByOne(h, rest);
      assert Extended({h}, lasts) == Extended({h}, rest) + {h + [b]};
      forall k | k in rest ensures h + [k] != h + [b] {
        assert (h + [k])[|h|] == k && (h + [b])[|h|] == b;
      }
      assert h + [b] !in Extended({h}, rest);
    }
  }

  // Every base62 string of length n is drawn from exactly 4^n of the accepted byte strings of
  // length n.
  lemma {:induction false} Uniform(code: string)
    requires IsBase62(code)
    ensures |Preimages(code)| == Pow(4, |code|)
    ensures forall bytes :: bytes in Preimages(code) <==> IsPreimage(bytes, code)
  {
    forall bytes {
      PreimagesAreExact(code, bytes);
    }
    if code != "" {
      var cs, c := code[..|code| - 1], code[|code| - 1];
      Uniform(cs);
      BytesAreExact(c, 0);
      ExtendedSize(Preimages(cs), Bytes(c));
    }
  }

  // --- aliases ---

  const RESERVED: set<string> := {
    "api", "healthz", "readyz", "metrics", "admin", "static", "favicon.ico", "robots.txt",
    "links", "webhooks", "settings", "assets", "going-private"}

  predicate AliasChar(c: char) {
    Rank(c) < BASE || c == '_' || c == '-'
  }

  predicate ValidAlias(s: string) {
    3 <= |s| <= 64 && (forall i :: 0 <= i < |s| ==> AliasChar(s[i])) && s !in RESERVED
  }

  // 3 to 64 letters, digits, underscores and dashes, and none of the reserved words.
  lemma ValidAliasIff(s: string)
    ensures ValidAlias(s) <==>
            && 3 <= |s| <= 64
            && (forall c :: c in s ==> '0' <= c <= '9' || 'A' <= c <= 'Z' || 'a' <= c <= 'z' || c == '_' || c == '-')
            && s !in RESERVED
  {
    forall i | 0 <= i < |s|
      ensures s[i] in s
    {
    }
  }

  // Generated codes are never checked against the reserved words. Whether that can bite depends
  // only on the configured length.
  lemma GeneratedMayBeReserved(length: nat)
    requires 4 <= length <= 16
    ensures (exists s :: |s| == length && IsBase62(s) && !ValidAlias(s)) <==> 5 <= length <= 8
  {
    if length == 5 {
      assert IsBase62("links");
    } else if length == 6 {
      assert IsBase62("assets");
    } else if length == 7 {
      assert IsBase62("healthz");
    } else if length == 8 {
      assert IsBase62("webhooks");
    } else {
      forall s | |s| == length && IsBase62(s)
        ensures ValidAlias(s)
      {
        assert Rank("favicon.ico"[7]) == BASE && Rank("robots.txt"[6]) == BASE && Rank("going-private"[5]) == BASE;
      }
    }
  }
}
