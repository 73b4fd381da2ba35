/** `build_param_ext_set`: names and values in fixed-width C string fields, and what the receiver reads back. */
module ParamEncoding {
  import opened Decimals

  const NUL: char := '\0'

  /** MAVLink PARAM_EXT_SET (message 323): 16 bytes of parameter id, 128 of value. */
  const ID_SIZE := 16
  const VALUE_SIZE := 128

  /** `strlen`: where the first NUL is. */
  ghost function CLength(s: string): (n: nat)
    ensures n <= |s| && NUL !in s[..n] && (n < |s| ==> s[n] == NUL)
  {
    FirstNul(s);
    var n: nat :| n <= |s| && NUL !in s[..n] && (n < |s| ==> s[n] == NUL);
    n
  }

  lemma {:induction false} FirstNul(s: string)
    ensures exists n: nat :: n <= |s| && NUL !in s[..n] && (n < |s| ==> s[n] == NUL)
  {
    if s == [] || s[0] == NUL {
      assert NUL !in s[..0];
    } else {
      FirstNul(s[1..]);
      var n: nat :| n <= |s[1..]| && NUL !in s[1..][..n] && (n < |s[1..]| ==> s[1..][n] == NUL);
      assert s[..n + 1] == [s[0]] + s[1..][..n];
      assert NUL !in s[..n + 1];
    }
  }

  /** What a C function sees of a string: everything before the first NUL. */
  ghost function CString(s: string): string {
    s[..CLength(s)]
  }

  lemma CStringIs(s: string)
    ensures NUL !in CString(s) && CString(s) <= s
    ensures |CString(s)| < |s| ==> s[|CString(s)|] == NUL
    ensures NUL !in s <==> CString(s) == s
  {
    if NUL !in s {
      assert CLength(s) == |s|;
    }
  }

  function Zeros(n: nat): string {
    seq(n, _ => NUL)
  }

  /** `strncpy` into a field of `n` bytes: at most `n` characters, padded with NUL. */
  ghost function Copied(s: string, n: nat): string {
    var c := CString(s);
    if |c| >= n then c[..n] else c + Zeros(n - |c|)
  }

  /** `std::strncpy(dst, src.c_str(), n)`. */
  method Strncpy(dst: array<char>, src: string)
    modifies dst
    ensures dst[..] == Copied(src, dst.Length)
  {
    var i := 0;
    CStringIs(src);
    while i < dst.Length && i < |src| && src[i] != NUL
      invariant 0 <= i <= dst.Length && i <= |CString(src)|
      invariant dst[..i] == src[..i]
    {
      dst[i] := src[i];
      i := i + 1;
    }
    var k := i;
    while k < dst.Length
      invariant i <= k <= dst.Length
      invariant dst[..i] == src[..i] && forall j | i <= j < k :: dst[j] == NUL
    {
      dst[k] := NUL;
      k := k + 1;
    }
    assert dst[..] == dst[..i] + dst[i..];
  }

  /** The field as it goes on the wire: the last byte is forced to NUL. */
  ghost function Encoded(s: string, n: nat): string
    requires n >= 1
  {
    Copied(s, n)[n - 1 := NUL]
  }

  method EncodeField(s: string, n: nat) returns (field: array<char>)
    requires n >= 1
    ensures fresh(field) && field[..] == Encoded(s, n)
  {
    field := new char[n];
    Strncpy(field, s);
    field[n - 1] := NUL;
  }

  /** What the receiver reads from a field. */
  ghost function Decoded(field: string): string {
    CString(field)
  }

  lemma CStringOfPadded(c: string, tail: string)
    requires NUL !in c && tail != [] && tail[0] == NUL
    ensures CString(c + tail) == c
  {
    assert (c + tail)[|c|] == NUL;
    assert forall k | 0 <= k < |c| :: (c + tail)[k] == c[k];
  }

  /** One byte always goes to the terminator: the receiver reads the first `n - 1` characters. */
  lemma DecodedOfEncoded(s: string, n: nat)
    requires n >= 1
    ensures Decoded(Encoded(s, n)) == (if |CString(s)| <= n - 1 then CString(s) else CString(s)[..n - 1])
  {
    CStringIs(s);
    var c := CString(s);
    var kept := if |c| <= n - 1 then c else c[..n - 1];
    assert NUL !in kept by {
      assert forall x <- kept :: x in c;
    }
    assert Encoded(s, n) == kept + Zeros(n - |kept|);
    CStringOfPadded(kept, Zeros(n - |kept|));
  }

  /** Every byte of the field: the string before its first NUL as far as it fits, and NUL behind it. */
  lemma EncodedBytes(s: string, n: nat, k: nat)
    requires n >= 1 && k < n
    ensures |Encoded(s, n)| == n
    ensures Encoded(s, n)[k] == if k < n - 1 && k < |CString(s)| then s[k] else NUL
  {
    CStringIs(s);
  }

  /** What the receiver takes a parameter name for. */
  ghost function WireName(name: string): (wire: string)
    ensures wire == Decoded(Encoded(name, ID_SIZE))
  {
    DecodedOfEncoded(name, ID_SIZE);
    FirstOf(CString(name), ID_SIZE - 1)
  }

  function FirstOf(s: string, n: nat): string {
    if |s| <= n then s else s[..n]
  }

  lemma WireNameIs(name: string)
    requires NUL !in name
    ensures WireName(name) == FirstOf(name, ID_SIZE - 1)
  {
    CStringIs(name);
  }

  /** A name arrives as it is exactly if it has at most 15 characters, none of them NUL. */
  lemma NameIntactIff(name: string)
    ensures WireName(name) == name <==> |name| <= ID_SIZE - 1 && NUL !in name
  {
    CStringIs(name);
  }

  // ------------------------------------------------------------------ per-card names

  lemma FirstBehindPrefix(prefix: string, s: string, room: nat)
    ensures FirstOf(prefix + s, |prefix| + room) == prefix + FirstOf(s, room)
  {
  }

  lemma DecimalHasNoNul(n: nat)
    ensures NUL !in Decimal(n)
  {
    DecimalIsDigits(n);
  }

  lemma FirstDigits(card: nat, room: nat)
    requires room >= 1
    ensures FirstOf(Decimal(card), room) == Decimal(LeadingDigits(card, room))
  {
    DecimalTruncated(card, room);
  }

  /** `room` characters are left behind the prefix, so as many leading digits arrive. */
  lemma CardNameOnWire(prefix: string, room: nat, card: nat)
    requires NUL !in prefix && room >= 1 && |prefix| + room == ID_SIZE - 1
    ensures WireName(prefix + Decimal(card)) == prefix + Decimal(LeadingDigits(card, room))
  {
    var digits := Decimal(card);
    DecimalHasNoNul(card);
    FirstDigits(card, room);
    WireNameIs(prefix + digits);
    FirstBehindPrefix(prefix, digits, room);
  }

  /** Numbers behind one prefix are told apart. */
  lemma SameNumber(prefix: string, s: string, t: string, a: nat, b: nat)
    requires s == prefix + Decimal(a) && t == prefix + Decimal(b)
    ensures s == t <==> a == b
  {
    assert s[|prefix|..] == Decimal(a) && t[|prefix|..] == Decimal(b);
    if s == t {
      DecimalInjective(a, b);
    }
  }

  /** A per-card name arrives intact exactly while the index has no more digits than there is room for. */
  lemma CardNameIntactIff(prefix: string, room: nat, card: nat)
    requires NUL !in prefix && room >= 1 && |prefix| + room == ID_SIZE - 1
    ensures WireName(prefix + Decimal(card)) == prefix + Decimal(card) <==> card < Pow10(room)
  {
    CardNameOnWire(prefix, room, card);
    SameNumber(prefix, WireName(prefix + Decimal(card)), prefix + Decimal(card), LeadingDigits(card, room), card);
    LeadingDigitsIntactIff(card, room);
  }

  /** Two cards are taken for one exactly if the digits that fit agree. */
  lemma CardNamesCollideIff(prefix: string, room: nat, a: nat, b: nat)
    requires NUL !in prefix && room >= 1 && |prefix| + room == ID_SIZE - 1
    ensures WireName(prefix + Decimal(a)) == WireName(prefix + Decimal(b))
            <==> LeadingDigits(a, room) == LeadingDigits(b, room)
  {
    CardNameOnWire(prefix, room, a);
    CardNameOnWire(prefix, room, b);
    SameNumber(prefix, WireName(prefix + Decimal(a)), WireName(prefix + Decimal(b)),
               LeadingDigits(a, room), LeadingDigits(b, room));
  }

  /** Three digits behind TX_POWER_MW_, two behind TX_POWER_MWA_. */
  lemma TxPowerNames(a: nat)
    ensures WireName("TX_POWER_MW_" + Decimal(a)) == "TX_POWER_MW_" + Decimal(a) <==> a < 1000
    ensures WireName("TX_POWER_MWA_" + Decimal(a)) == "TX_POWER_MWA_" + Decimal(a) <==> a < 100
  {
    assert Pow10(2) == 100 && Pow10(3) == 1000 by {
      assert Pow10(1) == 10;
    }
    CardNameIntactIff("TX_POWER_MW_", 3, a);
    CardNameIntactIff("TX_POWER_MWA_", 2, a);
  }
}
