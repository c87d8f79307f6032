/**
 LIB/Toastbox/HashInts.cpp: the 64-bit FNV-1a hash of a byte string. Products wrap around at 2^64, as
 they do for a `size_t` of 64 bits.
 */
module HashInts {
  const OFFSET_BASIS: bv64 := 0xcbf29ce484222325

  /** Xor with a byte, which `^=` widens with zeros. */
  function Mix(h: bv64, b: bv8): bv64 { h ^ (b as bv64) }

  /** Multiply by the FNV prime. */
  function Times(h: bv64): bv64 { h * 0x100000001b3 }

  /** The prime is odd: this is multiplication by its inverse modulo 2^64. */
  function Undo(h: bv64): bv64 { h * 0xce965057aff6957b }

  /** The byte that was mixed in, from the states before and after. */
  function Mixed(h: bv64, m: bv64): bv8 { ((h ^ m) & 0xff) as bv8 }

  /** One round of the loop. */
  function Round(h: bv64, b: bv8): bv64 { Times(Mix(h, b)) }

  /** The state after hashing `s` from state `h`. */
  function HashFrom(h: bv64, s: seq<bv8>): bv64 {
    if s == [] then h else Round(HashFrom(h, s[..|s| - 1]), s[|s| - 1])
  }

  /** The first `len` bytes; a negative length hashes none, as the loop's condition has it. */
  method HashInts(bytes: seq<bv8>, len: int) returns (res: bv64)
    requires len <= |bytes|
    ensures res == HashFrom(0xcbf29ce484222325, if len > 0 then bytes[..len] else [])
  {
    hide Mix, Times;
    res := OFFSET_BASIS;
    var i := 0;
    while i < len
      invariant 0 <= i && (i <= len || len < 0 == i)
      invariant res == HashFrom(OFFSET_BASIS, bytes[..i])
    {
      assert bytes[..i + 1][..i] == bytes[..i];
      res := Mix(res, bytes[i]);
      res := Times(res);
      i := i + 1;
    }
  }

  /** The state after a string and one more byte. */
  lemma LastRound(h: bv64, s: seq<bv8>, b: bv8)
    ensures HashFrom(h, []) == h
    ensures HashFrom(h, s + [b]) == Round(HashFrom(h, s), b)
  {
    hide Round;
    assert (s + [b])[..|s|] == s;
  }

  /** FNV-1a: the byte is mixed in before the multiplication. */
  lemma RoundIs(h: bv64, b: bv8)
    ensures Round(h, b) == (h ^ (b as bv64)) * 0x100000001b3
  {
    hide Times, Mix;
    MixIsXor(h, b);
    TimesIsProduct(h ^ (b as bv64));
  }

  lemma MixIsXor(h: bv64, b: bv8)
    ensures Mix(h, b) == h ^ (b as bv64)
  {
  }

  lemma TimesIsProduct(x: bv64)
    ensures Times(x) == x * 0x100000001b3
  {
  }

  /** The published hash of the string "a". */
  lemma HashOfLetter()
    ensures HashFrom(0xcbf29ce484222325, [0x61]) == 0xaf63dc4c8601ec8c
  {
    assert [0x61][..0] == [];
  }

  // ----- sensitivity -----

  lemma UndoProduct(x: bv64)
    ensures Undo(x * 0x100000001b3) == x
  {
  }

  /** Multiplying by the prime loses nothing. */
  lemma UndoTimes(x: bv64)
    ensures Undo(Times(x)) == x
  {
    hide Times, Undo;
    TimesIsProduct(x);
    UndoProduct(x);
  }

  /** Xor with a byte loses nothing of the state, and nothing of the byte. */
  lemma MixTwice(h: bv64, b: bv8)
    ensures Mix(Mix(h, b), b) == h
    ensures Mixed(h, Mix(h, b)) == b
  {
  }

  /** Nor does a round lose anything. */
  lemma RoundInjective(g: bv64, h: bv64, a: bv8, b: bv8)
    requires Round(g, a) == Round(h, b)
    ensures g == h <==> a == b
  {
    hide Mix, Times, Undo, Mixed;
    UndoTimes(Mix(g, a));
    UndoTimes(Mix(h, b));
    MixTwice(g, a);
    MixTwice(h, b);
  }

  /** Hashing the same bytes keeps different states different. */
  lemma {:induction false} HashFromInjective(g: bv64, h: bv64, s: seq<bv8>)
    requires HashFrom(g, s) == HashFrom(h, s)
    ensures g == h
  {
    hide Mix, Times, Round;
    if s != [] {
      var n := |s| - 1;
      RoundInjective(HashFrom(g, s[..n]), HashFrom(h, s[..n]), s[n], s[n]);
      HashFromInjective(g, h, s[..n]);
    }
  }

  lemma {:induction false} HashFromConcat(h: bv64, s: seq<bv8>, t: seq<bv8>)
    ensures HashFrom(h, s + t) == HashFrom(HashFrom(h, s), t)
  {
    hide Mix, Times, Round;
    if t == [] {
      assert s + t == s;
    } else {
      var n := |t| - 1;
      assert (s + t)[..|s + t| - 1] == s + t[..n];
      HashFromConcat(h, s, t[..n]);
    }
  }

  /** Changing a single byte of a string changes its hash. */
  lemma OneByteChangesHash(s: seq<bv8>, t: seq<bv8>, k: nat)
    requires |s| == |t| && k < |s|
    requires s[k] != t[k]
    requires forall i :: 0 <= i < |s| && i != k ==> s[i] == t[i]
    ensures HashFrom(0xcbf29ce484222325, s) != HashFrom(0xcbf29ce484222325, t)
  {
    hide Mix, Times, Round;
    var front, back := s[..k], s[k + 1..];
    assert t[..k] == front && t[k + 1..] == back;
    assert s == (front + [s[k]]) + back && t == (front + [t[k]]) + back;
    HashFromConcat(OFFSET_BASIS, front + [s[k]], back);
    HashFromConcat(OFFSET_BASIS, front + [t[k]], back);
    var h := HashFrom(OFFSET_BASIS, front);
    assert (front + [s[k]])[..k] == front && (front + [t[k]])[..k] == front;
    if HashFrom(OFFSET_BASIS, s) == HashFrom(OFFSET_BASIS, t) {
      HashFromInjective(Round(h, s[k]), Round(h, t[k]), back);
      RoundInjective(h, h, s[k], t[k]);
    }
  }
}
