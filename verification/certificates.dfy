/** The quorum certificate of a block: a generator signature and the signatures of more than half
    of the observers over it. */
module Certificates {
  import opened Basics
  import opened VotingTypes
  import opened Leader

  datatype SignatureError =
    | NoError | InsufficientSignature | Unrecoverable(at: nat) | ForeignSigner(at: nat) | DuplicatedSignature
    | TooFewCandidates | WrongTopAddress | WrongTopSignature | WrongCount | NoSignature

  ghost function Signers(sigs: seq<Signature>): set<Key> { set i | 0 <= i < |sigs| :: sigs[i].signer }

  ghost predicate DistinctSigners(sigs: seq<Signature>) {
    forall i, j :: 0 <= i < j < |sigs| ==> sigs[i].signer != sigs[j].signer
  }

  // Exactly n/2+1 observers, all different, signed `content`.
  ghost predicate IsMajority(content: Content, sigs: seq<Signature>, keys: set<Key>) {
    && |sigs| == |keys| / 2 + 1
    && (forall i :: 0 <= i < |sigs| ==> sigs[i].content == content && sigs[i].signer in keys)
    && DistinctSigners(sigs)
  }

  lemma SignersStep(sigs: seq<Signature>, i: nat)
    requires i < |sigs|
    ensures Signers(sigs[..i + 1]) == Signers(sigs[..i]) + {sigs[i].signer}
  {
    assert sigs[..i + 1] == sigs[..i] + [sigs[i]];
    forall k | k in Signers(sigs[..i]) ensures k in Signers(sigs[..i + 1]) {
      var j :| 0 <= j < i && sigs[..i][j].signer == k;
      assert sigs[..i + 1][j].signer == k;
    }
    assert sigs[..i + 1][i].signer == sigs[i].signer;
  }

  // Counting the distinct signers detects every duplicate.
  lemma {:induction false} SignerCount(sigs: seq<Signature>)
    ensures |Signers(sigs)| <= |sigs|
    ensures |Signers(sigs)| == |sigs| <==> DistinctSigners(sigs)
  {
    if sigs == [] {
      assert Signers(sigs) == {};
    } else {
      var n := |sigs| - 1;
      SignerCount(sigs[..n]);
      SignersStep(sigs, n);
      assert sigs[..n + 1] == sigs;
      var k := sigs[n].signer;
      if k in Signers(sigs[..n]) {
        var j :| 0 <= j < n && sigs[..n][j].signer == k;
        assert sigs[j].signer == sigs[n].signer;
        assert Signers(sigs) == Signers(sigs[..n]);
      } else {
        assert |Signers(sigs)| == |Signers(sigs[..n])| + 1;
        forall j | 0 <= j < n ensures sigs[j].signer != k {
          assert sigs[..n][j].signer in Signers(sigs[..n]);
        }
        assert DistinctSigners(sigs[..n]) <==> DistinctSigners(sigs) by {
          assert forall j :: 0 <= j < n ==> sigs[..n][j] == sigs[j];
        }
      }
    }
  }

  method ValidateSignaturesMajority(content: Content, sigs: seq<Signature>,
                                    keys: set<Key>) returns (e: SignatureError)
    ensures e.NoError? <==> IsMajority(content, sigs, keys)
    ensures e.InsufficientSignature? <==> |sigs| != |keys| / 2 + 1
    ensures e.DuplicatedSignature? ==> !DistinctSigners(sigs)
    ensures e.Unrecoverable? ==> e.at < |sigs| && sigs[e.at].content != content
    ensures e.ForeignSigner? ==> e.at < |sigs| && sigs[e.at].signer !in keys
  {
    if |sigs| != |keys| / 2 + 1 {
      return InsufficientSignature;
    }
    var sigMap: set<Key> := {};
    var i := 0;
    assert Signers(sigs[..0]) == {};
    while i < |sigs|
      invariant 0 <= i <= |sigs|
      invariant sigMap == Signers(sigs[..i])
      invariant forall j :: 0 <= j < i ==> sigs[j].content == content && sigs[j].signer in keys
    {
      var k := Recover(content, sigs[i]);
      if k.None? {
        return Unrecoverable(i);
      }
      if k.value !in keys {
        return ForeignSigner(i);
      }
      SignersStep(sigs, i);
      sigMap := sigMap + {k.value};
      i := i + 1;
    }
    assert sigs[..i] == sigs;
    SignerCount(sigs);
    assert sigMap == Signers(sigs);
    if |sigMap| != |sigs| {
      return DuplicatedSignature;
    }
    return NoError;
  }

  // The block was generated and signed by the ranked candidate and carries a majority certificate.
  ghost predicate ValidCertificate(p: Params, ranks: seq<Rank>, h: Header, sigs: seq<Signature>) {
    && h.timeoutCount < |ranks|
    && ranks[h.timeoutCount].address == h.generator
    && |sigs| == |p.keys| / 2 + 2
    && sigs[0].content == HeaderContent(HashOf(h))
    && sigs[0].signer == ranks[h.timeoutCount].publicHash
    && IsMajority(BlockSignContent(HashOf(h), sigs[0]), sigs[1..], p.keys)
  }

  method ValidateSignature(p: Params, ranks: seq<Rank>, h: Header, sigs: seq<Signature>) returns (e: SignatureError)
    ensures e.NoError? <==> ValidCertificate(p, ranks, h, sigs)
  {
    var top := TopRank(ranks, h.timeoutCount);
    if top.None? { return TooFewCandidates; }
    if top.value.address != h.generator { return WrongTopAddress; }
    if |sigs| == 0 { return NoSignature; }   // the source would panic on the missing element
    var k := Recover(HeaderContent(HashOf(h)), sigs[0]);
    if k.None? { return Unrecoverable(0); }
    if k.value != top.value.publicHash { return WrongTopSignature; }
    if |sigs| != |p.keys| / 2 + 2 { return WrongCount; }
    e := ValidateSignaturesMajority(BlockSignContent(HashOf(h), sigs[0]), sigs[1..], p.keys);
  }

  /** Any two quorums share more members than `faulty` can contain, so they share an observer
      outside it. */
  lemma QuorumsMeet(keys: set<Key>, faulty: set<Key>, a: set<Key>, b: set<Key>) returns (k: Key)
    requires a <= keys && b <= keys
    requires |a| >= |keys| / 2 + 1 && |b| >= |keys| / 2 + 1
    requires |faulty| < 2 * (|keys| / 2 + 1) - |keys|
    ensures k in a && k in b && k !in faulty
  {
    SubsetSize(a + b, keys);
    assert |a + b| + |a * b| == |a| + |b| by {
      assert a + b == a + (b - a);
      assert b == (b - a) + (a * b);
    }
    if a * b <= faulty {
      SubsetSize(a * b, faulty);
    }
    k :| k in a * b && k !in faulty;
  }

  lemma {:induction false} SubsetOfSize(s: set<Key>, n: nat) returns (r: set<Key>)
    requires n <= |s|
    ensures r <= s && |r| == n
    decreases n
  {
    if n == 0 {
      r := {};
    } else {
      var k :| k in s;
      var rest := SubsetOfSize(s - {k}, n - 1);
      r := rest + {k};
    }
  }

  // Two quorums that share no member outside `faulty`.
  ghost predicate MissEachOther(keys: set<Key>, faulty: set<Key>, a: set<Key>, b: set<Key>) {
    a <= keys && b <= keys && |a| >= |keys| / 2 + 1 && |b| >= |keys| / 2 + 1 && a * b <= faulty
  }

  /** The bound on faulty observers is exact: any more of them can hold all that two quorums share. */
  lemma QuorumsMeetExactlyWhenFew(keys: set<Key>, faulty: set<Key>)
    requires faulty <= keys && keys != {}
    ensures (forall a, b :: !MissEachOther(keys, faulty, a, b)) <==> |faulty| < 2 * (|keys| / 2 + 1) - |keys|
  {
    var n, q := |keys|, |keys| / 2 + 1;
    if |faulty| < 2 * q - n {
      forall a, b ensures !MissEachOther(keys, faulty, a, b) {
        if a <= keys && b <= keys && |a| >= q && |b| >= q {
          var k := QuorumsMeet(keys, faulty, a, b);
          assert k in a * b;
        }
      }
    } else {
      var shared := SubsetOfSize(faulty, 2 * q - n);
      var half := SubsetOfSize(keys - shared, n - q);
      var other := keys - shared - half;
      assert |keys - shared| == n - (2 * q - n);
      assert |other| == |keys - shared| - |half|;
      assert |shared + half| == q && |shared + other| == q;
      assert (shared + half) * (shared + other) == shared;
      assert MissEachOther(keys, faulty, shared + half, shared + other);
    }
  }
}
