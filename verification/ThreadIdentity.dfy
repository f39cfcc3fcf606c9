/** server/src/channels/thread-identity.ts: thread ids that carry the deployment they belong to. */
module ThreadIdentities {
  import opened Prelude

  const FINGERPRINT_BYTES: nat := 6
  const UUID_V8: bv8 := 0x80
  const VARIANT_RFC: bv8 := 0x80
  const LOCAL_ORGANIZATION_ID: string := "org_local"

  type Bytes = seq<bv8>

  // ---- hexadecimal ----

  function HexDigit(n: bv8): char
    requires n < 16
  {
    "0123456789abcdef"[n as int]
  }

  /** The value of a digit in either case, or None. */
  function HexValue(c: char): (v: Option<bv8>)
    ensures v.Some? ==> v.value < 16
  {
    if '0' <= c <= '9' then Some((c as int - '0' as int) as bv8)
    else if 'a' <= c <= 'f' then Some((c as int - 'a' as int + 10) as bv8)
    else if 'A' <= c <= 'F' then Some((c as int - 'A' as int + 10) as bv8)
    else None
  }

  lemma DigitInverts(n: bv8)
    requires n < 16
    ensures HexValue(HexDigit(n)) == Some(n) && HexDigit(n) != '-' && !('A' <= HexDigit(n) <= 'F')
  {
    var i := n as int;
    assert i as bv8 == n;
  }

  lemma ValueInverts(c: char)
    requires HexValue(c).Some? && !('A' <= c <= 'F')
    ensures HexDigit(HexValue(c).value) == c
  {
    var v := HexValue(c).value;
    if '0' <= c <= '9' {
      assert v as int == c as int - '0' as int;
    } else {
      assert v as int == c as int - 'a' as int + 10;
    }
  }

  lemma Nibbles(b: bv8)
    ensures b >> 4 < 16 && b & 0x0f < 16
    ensures ((b >> 4) << 4) | (b & 0x0f) == b
  {
  }

  lemma NibblesOf(hi: bv8, lo: bv8)
    requires hi < 16 && lo < 16
    ensures ((hi << 4) | lo) >> 4 == hi && ((hi << 4) | lo) & 0x0f == lo
  {
  }

  /** `toString("hex")` */
  function Hex(bytes: Bytes): (s: string)
    ensures |s| == 2 * |bytes|
  {
    if bytes == [] then ""
    else
      Nibbles(bytes[0]);
      [HexDigit(bytes[0] >> 4), HexDigit(bytes[0] & 0x0f)] + Hex(bytes[1..])
  }

  predicate IsHex(s: string) { forall i :: 0 <= i < |s| ==> HexValue(s[i]).Some? }

  /** `Buffer.from(..., "hex")` on digits only. */
  function Unhex(s: string): (b: Bytes)
    requires IsHex(s) && |s| % 2 == 0
    ensures 2 * |b| == |s|
  {
    if s == "" then []
    else [(HexValue(s[0]).value << 4) | HexValue(s[1]).value] + Unhex(s[2..])
  }

  lemma {:induction false} HexIsLower(bytes: Bytes)
    ensures IsHex(Hex(bytes)) && '-' !in Hex(bytes)
    ensures forall i :: 0 <= i < |Hex(bytes)| ==> !('A' <= Hex(bytes)[i] <= 'F')
  {
    if bytes != [] {
      Nibbles(bytes[0]);
      DigitInverts(bytes[0] >> 4);
      DigitInverts(bytes[0] & 0x0f);
      HexIsLower(bytes[1..]);
    }
  }

  lemma {:induction false} UnhexInverts(bytes: Bytes)
    requires IsHex(Hex(bytes))
    ensures Unhex(Hex(bytes)) == bytes
  {
    if bytes != [] {
      Nibbles(bytes[0]);
      DigitInverts(bytes[0] >> 4);
      DigitInverts(bytes[0] & 0x0f);
      assert Hex(bytes)[2..] == Hex(bytes[1..]);
      UnhexInverts(bytes[1..]);
    }
  }

  lemma {:induction false} HexInverts(s: string)
    requires IsHex(s) && |s| % 2 == 0 && forall i :: 0 <= i < |s| ==> !('A' <= s[i] <= 'F')
    ensures Hex(Unhex(s)) == s
    decreases |s|
  {
    if s != "" {
      NibblesOf(HexValue(s[0]).value, HexValue(s[1]).value);
      ValueInverts(s[0]);
      ValueInverts(s[1]);
      HexInverts(s[2..]);
      assert s == [s[0], s[1]] + s[2..];
    }
  }

  // ---- the textual form ----

  function Format(bytes: Bytes): string
    requires |bytes| == 16
  {
    var hex := Hex(bytes);
    hex[..8] + "-" + hex[8..12] + "-" + hex[12..16] + "-" + hex[16..20] + "-" + hex[20..32]
  }

  predicate DashAt(i: int) { i == 8 || i == 13 || i == 18 || i == 23 }

  predicate IsUuid(s: string) {
    |s| == 36 && forall i :: 0 <= i < 36 ==> if DashAt(i) then s[i] == '-' else HexValue(s[i]).Some?
  }

  /** `replaceAll("-", "")` */
  function WithoutDashes(s: string): string {
    if s == "" then "" else (if s[0] == '-' then "" else [s[0]]) + WithoutDashes(s[1..])
  }

  lemma {:induction false} WithoutDashesAppend(a: string, b: string)
    ensures WithoutDashes(a + b) == WithoutDashes(a) + WithoutDashes(b)
    decreases |a|
  {
    if a == "" {
      assert a + b == b;
    } else {
      assert (a + b)[1..] == a[1..] + b;
      WithoutDashesAppend(a[1..], b);
    }
  }

  lemma {:induction false} NoDashes(s: string)
    requires '-' !in s
    ensures WithoutDashes(s) == s
    decreases |s|
  {
    if s != "" {
      NoDashes(s[1..]);
    }
  }

  lemma DropsDash(group: string, rest: string)
    requires '-' !in group
    ensures WithoutDashes(group + ("-" + rest)) == group + WithoutDashes(rest)
  {
    WithoutDashesAppend(group, "-" + rest);
    NoDashes(group);
    LeadingDash(rest);
  }

  lemma LeadingDash(rest: string)
    ensures WithoutDashes("-" + rest) == WithoutDashes(rest)
  {
    var s := "-" + rest;
    assert s[0] == '-' && s[1..] == rest;
    assert WithoutDashes(s) == "" + WithoutDashes(rest);
  }

  /** The five groups of a UUID without the dashes between them. */
  function Groups(s: string): (g: string)
    requires |s| == 36
    ensures |g| == 32
  {
    s[..8] + (s[9..13] + (s[14..18] + (s[19..23] + s[24..])))
  }

  lemma DropsFourDashes(s: string)
    requires IsUuid(s)
    ensures WithoutDashes(s) == Groups(s)
  {
    assert s == s[..8] + ("-" + s[9..]);
    DropsDash(s[..8], s[9..]);
    assert s[9..] == s[9..13] + ("-" + s[14..]);
    DropsDash(s[9..13], s[14..]);
    assert s[14..] == s[14..18] + ("-" + s[19..]);
    DropsDash(s[14..18], s[19..]);
    assert s[19..] == s[19..23] + ("-" + s[24..]);
    DropsDash(s[19..23], s[24..]);
    NoDashes(s[24..]);
  }

  lemma GroupsAreHex(s: string)
    requires IsUuid(s)
    ensures IsHex(Groups(s))
    ensures (forall i :: 0 <= i < |s| ==> !('A' <= s[i] <= 'F')) ==>
              forall i :: 0 <= i < |Groups(s)| ==> !('A' <= Groups(s)[i] <= 'F')
  {
    forall i | 0 <= i < 32
      ensures exists j :: 0 <= j < 36 && !DashAt(j) && Groups(s)[i] == s[j]
    {
      var j := if i < 8 then i else if i < 12 then i + 1 else if i < 16 then i + 2 else if i < 20 then i + 3 else i + 4;
      assert Groups(s)[i] == s[j];
    }
  }

  lemma GroupsOfFormat(hex: string)
    requires |hex| == 32
    ensures var s := hex[..8] + "-" + hex[8..12] + "-" + hex[12..16] + "-" + hex[16..20] + "-" + hex[20..32];
            |s| == 36 && Groups(s) == hex
  {
    var s := hex[..8] + "-" + hex[8..12] + "-" + hex[12..16] + "-" + hex[16..20] + "-" + hex[20..32];
    forall i | 0 <= i < 32
      ensures Groups(s)[i] == hex[i]
    {
      var j := if i < 8 then i else if i < 12 then i + 1 else if i < 16 then i + 2 else if i < 20 then i + 3 else i + 4;
      assert s[j] == hex[i];
      assert Groups(s)[i] == s[j];
    }
  }

  lemma FormatOfGroups(s: string)
    requires IsUuid(s)
    ensures var hex := Groups(s);
            s == hex[..8] + "-" + hex[8..12] + "-" + hex[12..16] + "-" + hex[16..20] + "-" + hex[20..32]
  {
    GroupsOf(s);
    assert s[..9] == s[..8] + "-";
    assert s[..14] == s[..9] + s[9..13] + "-";
    assert s[..19] == s[..14] + s[14..18] + "-";
    assert s[..24] == s[..19] + s[19..23] + "-";
    assert s == s[..24] + s[24..];
  }

  lemma GroupsOf(s: string)
    requires |s| == 36
    ensures var hex := Groups(s);
            && hex[..8] == s[..8] && hex[8..12] == s[9..13] && hex[12..16] == s[14..18]
            && hex[16..20] == s[19..23] && hex[20..32] == s[24..]
  {
    Joins(s[..8], s[9..13] + (s[14..18] + (s[19..23] + s[24..])));
    Joins(s[9..13], s[14..18] + (s[19..23] + s[24..]));
    Joins(s[14..18], s[19..23] + s[24..]);
    Joins(s[19..23], s[24..]);
    var hex := Groups(s);
    assert hex[8..12] == hex[8..][..4] && hex[12..] == hex[8..][4..];
    assert hex[12..16] == hex[12..][..4] && hex[16..] == hex[12..][4..];
    assert hex[16..20] == hex[16..][..4] && hex[20..32] == hex[16..][4..];
  }

  lemma Joins(a: string, b: string)
    ensures (a + b)[..|a|] == a && (a + b)[|a|..] == b
  {
  }

  /** Reads a UUID back into its bytes; anything spelled otherwise has none. */
  function BytesOf(threadId: string): (b: Option<Bytes>)
    ensures b.Some? ==> |b.value| == 16
  {
    if !IsUuid(threadId) then None
    else
      DropsFourDashes(threadId);
      GroupsAreHex(threadId);
      Some(Unhex(WithoutDashes(threadId)))
  }

  /** Printing and reading back is the identity on 16 bytes. */
  lemma FormatInverts(bytes: Bytes)
    requires |bytes| == 16
    ensures BytesOf(Format(bytes)) == Some(bytes)
  {
    HexIsLower(bytes);
    UnhexInverts(bytes);
    GroupsOfFormat(Hex(bytes));
    FormatIsUuid(bytes);
    DropsFourDashes(Format(bytes));
  }

  lemma FormatIsUuid(bytes: Bytes)
    requires |bytes| == 16
    ensures IsUuid(Format(bytes))
  {
    HexIsLower(bytes);
  }

  /** Reading and printing is the identity on UUIDs written in lower case. */
  lemma BytesOfInverts(s: string)
    requires IsUuid(s) && forall i :: 0 <= i < |s| ==> !('A' <= s[i] <= 'F')
    ensures BytesOf(s).Some? && |BytesOf(s).value| == 16 && Format(BytesOf(s).value) == s
  {
    DropsFourDashes(s);
    GroupsAreHex(s);
    HexInverts(Groups(s));
    FormatOfGroups(s);
  }

  // ---- minting and owning ----

  function NamespaceFor(deploymentId: string, orgId: string): string {
    if orgId == LOCAL_ORGANIZATION_ID then deploymentId else deploymentId + ":org:" + orgId
  }

  /** Within one deployment, two organizations never share a namespace. */
  lemma NamespaceSeparates(deploymentId: string, orgId: string, other: string)
    ensures NamespaceFor(deploymentId, orgId) == NamespaceFor(deploymentId, other) <==> orgId == other
  {
    var prefix := deploymentId + ":org:";
    assert (prefix + orgId)[|prefix|..] == orgId;
    assert (prefix + other)[|prefix|..] == other;
  }

  /** The bytes of a minted id: the fingerprint, then random bytes with version and variant set. */
  function MintedBytes(fingerprint: Bytes, random: Bytes): (b: Bytes)
    requires |fingerprint| == FINGERPRINT_BYTES && |random| == 16
    ensures |b| == 16
  {
    fingerprint + [(random[6] & 0x0f) | UUID_V8, random[7], (random[8] & 0x3f) | VARIANT_RFC] + random[9..]
  }

  /** Version 8 and the RFC variant sit outside the fingerprint, and every other bit is random. */
  lemma MintedLayout(fingerprint: Bytes, random: Bytes)
    requires |fingerprint| == FINGERPRINT_BYTES && |random| == 16
    ensures var b := MintedBytes(fingerprint, random);
            && b[..FINGERPRINT_BYTES] == fingerprint
            && b[6] >> 4 == 8 && b[6] & 0x0f == random[6] & 0x0f
            && b[8] >> 6 == 2 && b[8] & 0x3f == random[8] & 0x3f
            && b[7] == random[7] && b[9..] == random[9..]
  {
    var b := MintedBytes(fingerprint, random);
    assert b[6] == (random[6] & 0x0f) | UUID_V8;
    assert b[8] == (random[8] & 0x3f) | VARIANT_RFC;
  }

  /** One deployment's thread identity; `sha256` is any function to digests of 32 bytes. */
  class ThreadIdentity {
    const deploymentId: string
    const sha256: string -> Bytes

    ghost predicate Valid() { forall s :: |sha256(s)| == 32 }

    constructor (deploymentId: string, sha256: string -> Bytes)
      requires forall s :: |sha256(s)| == 32
      ensures Valid() && this.deploymentId == deploymentId && this.sha256 == sha256
    {
      this.deploymentId, this.sha256 := deploymentId, sha256;
    }

    function FingerprintOf(orgId: string): (f: Bytes)
      requires Valid()
      ensures |f| == FINGERPRINT_BYTES
    {
      sha256(NamespaceFor(deploymentId, orgId))[..FINGERPRINT_BYTES]
    }

    /** Writes the fingerprint, the version and the variant over a buffer of random bytes. */
    method Mint(orgId: string, bytes: array<bv8>) returns (id: string)
      requires Valid() && bytes.Length == 16
      modifies bytes
      ensures bytes[..] == MintedBytes(FingerprintOf(orgId), old(bytes[..]))
      ensures id == Format(MintedBytes(FingerprintOf(orgId), old(bytes[..])))
    {
      ghost var random := bytes[..];
      var fingerprint := FingerprintOf(orgId);
      for i := 0 to FINGERPRINT_BYTES
        invariant forall k :: 0 <= k < i ==> bytes[k] == fingerprint[k]
        invariant forall k :: i <= k < 16 ==> bytes[k] == random[k]
      {
        bytes[i] := fingerprint[i];
      }
      bytes[6] := (bytes[6] & 0x0f) | UUID_V8;
      bytes[8] := (bytes[8] & 0x3f) | VARIANT_RFC;
      assert bytes[..] == MintedBytes(fingerprint, random);
      return Format(bytes[..]);
    }

    predicate Owns(threadId: string, orgId: string)
      requires Valid()
    {
      var bytes := BytesOf(threadId);
      bytes.Some?
      && bytes.value[6] & 0xf0 == UUID_V8
      && bytes.value[..FINGERPRINT_BYTES] == FingerprintOf(orgId)
    }

    /** What is owned: a version 8 UUID whose first six bytes are the fingerprint; anything else is not. */
    lemma OwnsExactlyWhen(threadId: string, orgId: string)
      requires Valid()
      ensures Owns(threadId, orgId) <==>
                exists b: Bytes :: BytesOf(threadId) == Some(b) && |b| == 16 && b[6] >> 4 == 8 && b[..6] == FingerprintOf(orgId)
      ensures !IsUuid(threadId) ==> !Owns(threadId, orgId)
    {
      if IsUuid(threadId) {
        VersionIsHigh(BytesOf(threadId).value[6]);
      }
    }

    /** The fingerprint: six bytes of the digest of the deployment, and of the organization unless it is the first. */
    lemma FingerprintIs(orgId: string)
      requires Valid()
      ensures |FingerprintOf(orgId)| == 6
      ensures forall i :: 0 <= i < 6 ==>
                FingerprintOf(orgId)[i] ==
                sha256(if orgId == "org_local" then deploymentId else deploymentId + ":org:" + orgId)[i]
    {
    }

    /** An id minted here is another deployment's exactly when the two fingerprints agree. */
    lemma OwnedElsewhere(there: ThreadIdentity, orgId: string, other: string, random: Bytes)
      requires Valid() && there.Valid() && |random| == 16
      ensures there.Owns(Format(MintedBytes(FingerprintOf(orgId), random)), other) <==>
                FingerprintOf(orgId) == there.FingerprintOf(other)
    {
      var b := MintedBytes(FingerprintOf(orgId), random);
      FormatInverts(b);
      MintedLayout(FingerprintOf(orgId), random);
      assert b[6] == (random[6] & 0x0f) | UUID_V8;
      VersionMask(random[6]);
    }

    /** A minted id is owned by its own organization, and by another exactly when the fingerprints agree. */
    lemma OwnsMinted(orgId: string, other: string, random: Bytes)
      requires Valid() && |random| == 16
      ensures var id := Format(MintedBytes(FingerprintOf(orgId), random));
              && Owns(id, orgId)
              && (Owns(id, other) <==> FingerprintOf(orgId) == FingerprintOf(other))
    {
      var b := MintedBytes(FingerprintOf(orgId), random);
      FormatInverts(b);
      MintedLayout(FingerprintOf(orgId), random);
      assert b[6] == (random[6] & 0x0f) | UUID_V8;
      VersionMask(random[6]);
    }
  }

  lemma VersionMask(r: bv8)
    ensures ((r & 0x0f) | UUID_V8) & 0xf0 == UUID_V8
  {
  }

  lemma VersionIsHigh(b: bv8)
    ensures b & 0xf0 == UUID_V8 <==> b >> 4 == 8
  {
  }

  /** In a minted id the version and the variant can be read off the text: `8`, and one of `8`, `9`, `a` and `b`. */
  lemma MintedText(fingerprint: Bytes, random: Bytes)
    requires |fingerprint| == FINGERPRINT_BYTES && |random| == 16
    ensures var id := Format(MintedBytes(fingerprint, random));
            |id| == 36 && id[14] == '8' && id[19] in {'8', '9', 'a', 'b'}
  {
    var b := MintedBytes(fingerprint, random);
    MintedLayout(fingerprint, random);
    HexAt(b, 6);
    HexAt(b, 8);
    VariantDigit(b[8]);
    DigitsOfEight(b[6] >> 4);
    DigitsOfEight(b[8] >> 4);
    var hex := Hex(b);
    var id := Format(b);
    assert id[14] == hex[12];
    assert id[19] == hex[16];
  }

  /** Two digits a byte, the high one first. */
  lemma {:induction false} HexAt(bytes: Bytes, i: nat)
    requires i < |bytes|
    ensures bytes[i] >> 4 < 16 && bytes[i] & 0x0f < 16
    ensures Hex(bytes)[2 * i] == HexDigit(bytes[i] >> 4) && Hex(bytes)[2 * i + 1] == HexDigit(bytes[i] & 0x0f)
    decreases |bytes|
  {
    Nibbles(bytes[i]);
    if i > 0 {
      HexAt(bytes[1..], i - 1);
    }
  }

  lemma VariantDigit(b: bv8)
    requires b >> 6 == 2
    ensures b >> 4 == 8 || b >> 4 == 9 || b >> 4 == 10 || b >> 4 == 11
  {
  }

  lemma DigitsOfEight(n: bv8)
    requires n == 8 || n == 9 || n == 10 || n == 11
    ensures HexDigit(n) == if n == 8 then '8' else if n == 9 then '9' else if n == 10 then 'a' else 'b'
  {
    assert 8 as bv8 as int == 8 && 9 as bv8 as int == 9 && 10 as bv8 as int == 10 && 11 as bv8 as int == 11;
  }
}
