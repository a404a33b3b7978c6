/** The mnemonic codec of `bip39.py`: entropy to words and back, for any 256-bit checksum hash. */
module Bip39 {
  import opened Wrappers
  import opened Arithmetic
  import opened ByteStrings

  type Checksum = b: Bytes | |b| == 32 witness seq(32, i => 0)

  // ------------------------------------------------------------------ binary text

  function Pow2(n: nat): (p: nat)
    ensures p > 0
  {
    if n == 0 then 1 else 2 * Pow2(n - 1)
  }

  /** `bin(x)[2:]` */
  function Binary(x: nat): (s: seq<bool>)
    ensures s != []
  {
    if x < 2 then [x == 1] else Binary(x / 2) + [x % 2 == 1]
  }

  /** `s.zfill(n)` */
  function Zfill(s: seq<bool>, n: nat): seq<bool> {
    if |s| >= n then s else seq(n - |s|, i => false) + s
  }

  /** `int(s, 2)` */
  function FromBits(s: seq<bool>): nat {
    if s == [] then 0 else 2 * FromBits(s[..|s| - 1]) + (if s[|s| - 1] then 1 else 0)
  }

  /** The `n` low bits, highest first. */
  function Fixed(x: nat, n: nat): (s: seq<bool>)
    ensures |s| == n
  {
    if n == 0 then [] else Fixed(x / 2, n - 1) + [x % 2 == 1]
  }

  lemma {:induction false} FixedZero(n: nat)
    ensures Fixed(0, n) == seq(n, i => false)
  {
    if n > 0 {
      FixedZero(n - 1);
    }
  }

  /** Padded minimal binary text is fixed-width text, when the number fits. */
  lemma {:induction false} ZfillBinary(x: nat, n: nat)
    requires n >= 1 && x < Pow2(n)
    ensures Zfill(Binary(x), n) == Fixed(x, n)
  {
    FixedZero(n - 1);
    if x >= 2 {
      assert n > 1 by {
        assert Pow2(1) == 2 * Pow2(0);
      }
      ZfillBinary(x / 2, n - 1);
      ZfillSnoc(Binary(x / 2), x % 2 == 1, n);
    }
  }

  lemma {:induction false} ZfillSnoc(s: seq<bool>, b: bool, n: nat)
    requires n >= 1
    ensures Zfill(s + [b], n) == Zfill(s, n - 1) + [b]
  {
  }

  lemma {:induction false} FixedRoundTrip(x: nat, n: nat)
    requires x < Pow2(n)
    ensures FromBits(Fixed(x, n)) == x
  {
    if n > 0 {
      FixedRoundTrip(x / 2, n - 1);
      assert Fixed(x, n)[..n - 1] == Fixed(x / 2, n - 1);
    }
  }

  lemma {:induction false} FromBitsRoundTrip(s: seq<bool>)
    ensures FromBits(s) < Pow2(|s|) && Fixed(FromBits(s), |s|) == s
  {
    if s != [] {
      var n := |s| - 1;
      FromBitsRoundTrip(s[..n]);
      assert s == s[..n] + [s[n]];
    }
  }

  lemma {:induction false} BytesAreBits(k: nat)
    ensures Pow2(8 * k) == Pow256(k)
  {
    if k > 0 {
      BytesAreBits(k - 1);
      var n := 8 * (k - 1);
      assert Pow2(n + 2) == 4 * Pow2(n);
      assert Pow2(n + 4) == 4 * Pow2(n + 2);
      assert Pow2(n + 6) == 4 * Pow2(n + 4);
      assert Pow2(n + 8) == 4 * Pow2(n + 6);
    }
  }

  /** `int(bits, 2).to_bytes(len(bits) // 8, "big")` */
  function BitsToBytes(bits: seq<bool>): (b: Bytes)
    requires |bits| % 8 == 0
    ensures |b| == |bits| / 8
  {
    FromBitsRoundTrip(bits);
    BytesAreBits(|bits| / 8);
    BigEndian(FromBits(bits), |bits| / 8)
  }

  /** `bin(int.from_bytes(b, "big"))[2:].zfill(8 * len(b))`, for a non-empty string. */
  function BytesToBits(b: Bytes): (bits: seq<bool>)
    requires b != []
    ensures |bits| == 8 * |b|
  {
    BytesFit(b);
    Zfill(Binary(FromBigEndian(b)), 8 * |b|)
  }

  lemma {:induction false} BytesFit(b: Bytes)
    requires b != []
    ensures FromBigEndian(b) < Pow2(8 * |b|)
    ensures Zfill(Binary(FromBigEndian(b)), 8 * |b|) == Fixed(FromBigEndian(b), 8 * |b|)
  {
    FromBigEndianRoundTrip(b);
    BytesAreBits(|b|);
    ZfillBinary(FromBigEndian(b), 8 * |b|);
  }

  lemma {:induction false} BytesRoundTrip(b: Bytes)
    requires b != []
    ensures BitsToBytes(BytesToBits(b)) == b
  {
    BytesFit(b);
    FixedRoundTrip(FromBigEndian(b), 8 * |b|);
    FromBigEndianRoundTrip(b);
  }

  lemma {:induction false} BitsRoundTrip(bits: seq<bool>)
    requires |bits| % 8 == 0 && bits != []
    ensures BitsToBytes(bits) != [] && BytesToBits(BitsToBytes(bits)) == bits
  {
    var b := BitsToBytes(bits);
    FromBitsRoundTrip(bits);
    BytesAreBits(|b|);
    BigEndianRoundTrip(FromBits(bits), |b|);
    BytesFit(b);
  }

  // ------------------------------------------------------------------ groups of eleven

  type Group = x: nat | x < 2048

  /** `bin(x)[2:].zfill(11)` */
  function GroupBits(x: Group): (s: seq<bool>)
    ensures |s| == 11
  {
    ElevenBits(x);
    Zfill(Binary(x), 11)
  }

  lemma {:induction false} ElevenBits(x: Group)
    ensures x < Pow2(11) && Zfill(Binary(x), 11) == Fixed(x, 11)
  {
    Pow2Eleven();
    ZfillBinary(x, 11);
  }

  lemma {:induction false} Pow2Eleven()
    ensures Pow2(11) == 2048
  {
    assert Pow2(2) == 4;
    assert Pow2(5) == 32;
    assert Pow2(8) == 256;
  }

  function GroupOf(s: seq<bool>): (x: Group)
    requires |s| == 11
    ensures GroupBits(x) == s
  {
    FromBitsRoundTrip(s);
    Pow2Eleven();
    ElevenBits(FromBits(s));
    FromBits(s)
  }

  lemma {:induction false} GroupRoundTrip(x: Group)
    ensures GroupOf(GroupBits(x)) == x
  {
    ElevenBits(x);
    FixedRoundTrip(x, 11);
  }

  /** Where the bits of group `i` begin. */
  function Start(i: nat): nat {
    11 * i
  }

  /** `int(bits[i:i + 11], 2)` for every eleventh `i` */
  function Groups(bits: seq<bool>): (r: seq<Group>)
    ensures |r| == |bits| / 11
    ensures forall i :: 0 <= i < |r| ==> r[i] == GroupOf(bits[Start(i)..Start(i) + 11])
  {
    seq(|bits| / 11, i requires 0 <= i < |bits| / 11 => GroupOf(bits[Start(i)..Start(i) + 11]))
  }

  /** The joined 11-bit forms of word numbers. */
  function Joined(ix: seq<Group>): (bits: seq<bool>)
    ensures |bits| == Start(|ix|)
  {
    if ix == [] then [] else Joined(ix[..|ix| - 1]) + GroupBits(ix[|ix| - 1])
  }

  lemma {:induction false} JoinedAt(ix: seq<Group>, i: nat)
    requires i < |ix|
    ensures Joined(ix)[Start(i)..Start(i) + 11] == GroupBits(ix[i])
  {
    hide GroupBits;
    var n := |ix| - 1;
    if i < n {
      JoinedAt(ix[..n], i);
      assert Joined(ix)[Start(i)..Start(i) + 11] == Joined(ix[..n])[Start(i)..Start(i) + 11];
    }
  }

  lemma {:induction false} GroupsJoined(ix: seq<Group>)
    ensures Groups(Joined(ix)) == ix
  {
    hide GroupBits, GroupOf, Joined;
    forall i | 0 <= i < |ix| ensures Groups(Joined(ix))[i] == ix[i] {
      JoinedAt(ix, i);
      GroupRoundTrip(ix[i]);
    }
  }

  lemma {:induction false} SliceOfTake<T>(s: seq<T>, n: nat, lo: nat, hi: nat)
    requires lo <= hi <= n <= |s|
    ensures s[..n][lo..hi] == s[lo..hi]
  {
  }

  lemma {:induction false} GroupsSnoc(bits: seq<bool>)
    requires |bits| % 11 == 0 && bits != []
    ensures var n, g := |bits| - 11, Groups(bits);
      |g| > 0 && g[..|g| - 1] == Groups(bits[..n]) && g[|g| - 1] == GroupOf(bits[n..])
  {
    hide GroupBits, GroupOf, Groups;
    var n := |bits| - 11;
    var g, g' := Groups(bits), Groups(bits[..n]);
    forall i | 0 <= i < |g'| ensures g[i] == g'[i] {
      SliceOfTake(bits, n, Start(i), Start(i) + 11);
    }
    assert Start(|g'|) == n;
    assert bits[n..n + 11] == bits[n..];
  }

  lemma {:induction false} JoinedGroups(bits: seq<bool>)
    requires |bits| % 11 == 0
    ensures Joined(Groups(bits)) == bits
  {
    hide GroupBits, GroupOf, Groups;
    if bits != [] {
      var n := |bits| - 11;
      GroupsSnoc(bits);
      JoinedGroups(bits[..n]);
      assert bits == bits[..n] + bits[n..];
    }
  }

  // ------------------------------------------------------------------ the codec

  ghost predicate Wordlist(list: seq<string>) {
    |list| == 2048 && forall i, j :: 0 <= i < j < |list| ==> list[i] != list[j]
  }

  /** `_WORD_INDEX` */
  function WordIndex(list: seq<string>): (m: map<string, Group>)
    requires Wordlist(list)
    ensures forall i: Group :: list[i] in m && m[list[i]] == i
    ensures forall w :: w in m ==> list[m[w]] == w
  {
    map i: Group | 0 <= i < |list| :: list[i] := i
  }

  predicate EntropySize(n: nat) {
    n == 16 || n == 20 || n == 24 || n == 28 || n == 32
  }

  predicate WordCount(n: nat) {
    n == 12 || n == 15 || n == 18 || n == 21 || n == 24
  }

  /** The first bits of the hash of the entropy. */
  function CheckBits(sha: Bytes -> Checksum, entropy: Bytes, n: nat): seq<bool>
    requires n <= 256
  {
    BytesToBits(sha(entropy))[..n]
  }

  function EntropyBits(sha: Bytes -> Checksum, entropy: Bytes): seq<bool>
    requires EntropySize(|entropy|)
  {
    BytesToBits(entropy) + CheckBits(sha, entropy, |entropy| * 8 / 32)
  }

  /** `_entropy_to_mnemonic`, as a list of words. */
  function ToMnemonic(list: seq<string>, sha: Bytes -> Checksum, entropy: Bytes): Option<seq<string>>
    requires Wordlist(list)
  {
    if EntropySize(|entropy|) then Some(Words(list, Groups(EntropyBits(sha, entropy)))) else None
  }

  function Words(list: seq<string>, ix: seq<Group>): (r: seq<string>)
    requires |list| == 2048
    ensures |r| == |ix| && forall i :: 0 <= i < |r| ==> r[i] == list[ix[i]]
  {
    seq(|ix|, i requires 0 <= i < |ix| => list[ix[i]])
  }

  /** The word numbers of known words. */
  function Numbers(index: map<string, Group>, words: seq<string>): (r: Option<seq<Group>>)
    ensures r.Some? <==> forall w :: w in words ==> w in index
    ensures r.Some? ==>
      |r.value| == |words| && forall i :: 0 <= i < |words| ==> words[i] in index && r.value[i] == index[words[i]]
  {
    if exists w :: w in words && w !in index then None else
      Some(seq(|words|, i requires 0 <= i < |words| => assert words[i] in words; index[words[i]]))
  }

  /** The entropy in a bit string that ends in its checksum. */
  function Checked(sha: Bytes -> Checksum, bits: seq<bool>): Option<Bytes>
    requires WordCount(|bits| / 11) && |bits| % 11 == 0
  {
    var n := |bits| * 32 / 33;
    var entropy := BitsToBytes(bits[..n]);
    if bits[n..] == CheckBits(sha, entropy, |bits| - n) then Some(entropy) else None
  }

  /** `to_entropy`: None for a bad length, an unknown word or a failed checksum. */
  function ToEntropy(list: seq<string>, sha: Bytes -> Checksum, words: seq<string>): (r: Option<Bytes>)
    requires Wordlist(list)
  {
    var numbers := Numbers(WordIndex(list), words);
    if !WordCount(|words|) || numbers.None? then None else Checked(sha, Joined(numbers.value))
  }

  // ------------------------------------------------------------------ round trips

  lemma {:induction false} NumbersOfWords(list: seq<string>, ix: seq<Group>)
    requires Wordlist(list)
    ensures Numbers(WordIndex(list), Words(list, ix)) == Some(ix)
  {
    hide WordIndex;
    var words, index := Words(list, ix), WordIndex(list);
    forall w | w in words ensures w in index {
      var i :| 0 <= i < |words| && words[i] == w;
      assert w == list[ix[i]];
    }
    assert Numbers(index, words).value == ix;
  }

  lemma {:induction false} WordsOfNumbers(list: seq<string>, words: seq<string>)
    requires Wordlist(list) && Numbers(WordIndex(list), words).Some?
    ensures Words(list, Numbers(WordIndex(list), words).value) == words
  {
    hide WordIndex, Numbers;
  }

  lemma {:induction false} EntropyBitsLength(sha: Bytes -> Checksum, entropy: Bytes)
    requires EntropySize(|entropy|)
    ensures |EntropyBits(sha, entropy)| == 33 * (|entropy| / 4) && WordCount(|EntropyBits(sha, entropy)| / 11)
    ensures |EntropyBits(sha, entropy)| % 11 == 0
  {
    hide BytesToBits;
  }

  lemma {:induction false} CheckedEncodes(sha: Bytes -> Checksum, entropy: Bytes)
    requires EntropySize(|entropy|) && WordCount(|EntropyBits(sha, entropy)| / 11)
    requires |EntropyBits(sha, entropy)| % 11 == 0
    ensures Checked(sha, EntropyBits(sha, entropy)) == Some(entropy)
  {
    hide BytesToBits, BitsToBytes, CheckBits;
    EntropyBitsLength(sha, entropy);
    BytesRoundTrip(entropy);
    var bits, n := EntropyBits(sha, entropy), 8 * |entropy|;
    assert |bits| * 32 / 33 == n;
    assert bits[..n] == BytesToBits(entropy) && bits[n..] == CheckBits(sha, entropy, n / 32);
  }

  /** Decoding an encoded entropy of any allowed size returns it. */
  lemma {:induction false} DecodeEncode(list: seq<string>, sha: Bytes -> Checksum, entropy: Bytes)
    requires Wordlist(list) && EntropySize(|entropy|)
    ensures ToMnemonic(list, sha, entropy).Some?
    ensures ToEntropy(list, sha, ToMnemonic(list, sha, entropy).value) == Some(entropy)
  {
    hide Wordlist, WordIndex, Numbers, Joined, Groups, Words, EntropyBits, Checked;
    var bits := EntropyBits(sha, entropy);
    EntropyBitsLength(sha, entropy);
    NumbersOfWords(list, Groups(bits));
    JoinedGroups(bits);
    CheckedEncodes(sha, entropy);
  }

  lemma {:induction false} EncodesChecked(sha: Bytes -> Checksum, bits: seq<bool>)
    requires WordCount(|bits| / 11) && |bits| % 11 == 0 && Checked(sha, bits).Some?
    ensures EntropySize(|Checked(sha, bits).value|) && EntropyBits(sha, Checked(sha, bits).value) == bits
  {
    hide BytesToBits, BitsToBytes, CheckBits;
    var n := |bits| * 32 / 33;
    BitsRoundTrip(bits[..n]);
    assert bits == bits[..n] + bits[n..];
  }

  /** Any phrase the decoder accepts encodes back to the same words. */
  lemma {:induction false} EncodeDecode(list: seq<string>, sha: Bytes -> Checksum, words: seq<string>)
    requires Wordlist(list) && ToEntropy(list, sha, words).Some?
    ensures ToMnemonic(list, sha, ToEntropy(list, sha, words).value) == Some(words)
  {
    hide Wordlist, WordIndex, Numbers, Joined, Groups, Words, EntropyBits, Checked;
    var ix := Numbers(WordIndex(list), words).value;
    EncodesChecked(sha, Joined(ix));
    GroupsJoined(ix);
    WordsOfNumbers(list, words);
  }

  // ------------------------------------------------------------------ the words as one number

  /** Word numbers read as the digits of one number, the first word the most significant. */
  function WordsNumber(ix: seq<Group>): nat {
    if ix == [] then 0 else 2048 * WordsNumber(ix[..|ix| - 1]) + ix[|ix| - 1]
  }

  lemma {:induction false} FromBitsConcat(s: seq<bool>, t: seq<bool>)
    ensures FromBits(s + t) == FromBits(s) * Pow2(|t|) + FromBits(t)
  {
    if t == [] {
      assert s + t == s;
    } else {
      var n := |t| - 1;
      FromBitsConcat(s, t[..n]);
      assert (s + t)[..|s + t| - 1] == s + t[..n];
      assert FromBits(s) * (2 * Pow2(n)) == 2 * (FromBits(s) * Pow2(n));
    }
  }

  lemma {:induction false} JoinedNumber(ix: seq<Group>)
    ensures FromBits(Joined(ix)) == WordsNumber(ix)
  {
    if ix != [] {
      hide GroupBits, FromBits, Pow2, Start;
      var n := |ix| - 1;
      var high := FromBits(Joined(ix[..n]));
      JoinedNumber(ix[..n]);
      FromBitsConcat(Joined(ix[..n]), GroupBits(ix[n]));
      GroupNumber(ix[n]);
      Pow2Eleven();
      assert high * 2048 == 2048 * high;
    }
  }

  lemma {:induction false} GroupNumber(x: Group)
    ensures FromBits(GroupBits(x)) == x
  {
    ElevenBits(x);
    FixedRoundTrip(x, 11);
  }

  lemma {:induction false} BytesNumber(b: Bytes)
    requires b != []
    ensures FromBits(BytesToBits(b)) == FromBigEndian(b)
  {
    BytesFit(b);
    FixedRoundTrip(FromBigEndian(b), 8 * |b|);
  }

  /** Leading bits are a quotient. */
  lemma {:induction false} LeadingBits(s: seq<bool>, n: nat)
    requires n <= |s|
    ensures FromBits(s[..n]) == FromBits(s) / Pow2(|s| - n)
  {
    var t := s[n..];
    assert s == s[..n] + t;
    FromBitsConcat(s[..n], t);
    FromBitsRoundTrip(t);
    QuotientIs(FromBits(s), FromBits(s[..n]), Pow2(|t|), FromBits(t));
  }

  /**
   The words of an entropy read as one number are the entropy followed by the leading bits of its hash,
   one bit for every four bytes of entropy.
   */
  lemma {:induction false} MnemonicNumber(list: seq<string>, sha: Bytes -> Checksum, entropy: Bytes)
    returns (ix: seq<Group>)
    requires Wordlist(list) && EntropySize(|entropy|)
    ensures ToMnemonic(list, sha, entropy).Some?
    ensures |ToMnemonic(list, sha, entropy).value| == |ix| == 3 * (|entropy| / 4)
    ensures forall i :: 0 <= i < |ix| ==> ToMnemonic(list, sha, entropy).value[i] == list[ix[i]]
    ensures var c := |entropy| / 4;
      WordsNumber(ix) == FromBigEndian(entropy) * Pow2(c) + FromBigEndian(sha(entropy)) / Pow2(256 - c)
  {
    hide BytesToBits, FromBits, Joined, Groups, WordsNumber, Pow2, FromBigEndian;
    var c := |entropy| / 4;
    var bits := EntropyBits(sha, entropy);
    ix := Groups(bits);
    EntropyBitsLength(sha, entropy);
    JoinedGroups(bits);
    JoinedNumber(ix);
    FromBitsConcat(BytesToBits(entropy), CheckBits(sha, entropy, c));
    BytesNumber(entropy);
    BytesNumber(sha(entropy));
    LeadingBits(BytesToBits(sha(entropy)), c);
  }
}
