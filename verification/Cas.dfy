/**
 The content-addressed store and its garbage collector.  The digest function is a
 parameter that yields 64 lowercase hex characters; nothing assumes it injective, so
 what depends on the absence of a collision says so.
 */
module Cas {
  import opened Ir

  type Bytes = seq<bv8>

  const ALGORITHM := "sha256:"

  /** A blob's file: a directory named by the first two hex characters, a file named by the rest. */
  datatype BlobPath = BlobPath(prefix: string, rest: string)

  type Blobs = map<BlobPath, Bytes>

  datatype VerifyError = UnsupportedAlgorithm | InvalidDigest | NotFound | SizeMismatch | DigestMismatch

  predicate Hex64(s: string) {
    |s| == 64 && forall i :: 0 <= i < 64 ==> '0' <= s[i] <= '9' || 'a' <= s[i] <= 'f'
  }

  ghost predicate HexHash(hash: Bytes -> string) {
    forall b :: Hex64(hash(b))
  }

  function PathOf(hex: string): BlobPath
    requires Hex64(hex)
  {
    BlobPath(hex[..2], hex[2..])
  }

  function HexOf(p: BlobPath): string {
    p.prefix + p.rest
  }

  /** Splitting a digest into directory and file loses nothing. */
  lemma PathRoundTrip(hex: string, p: BlobPath)
    requires Hex64(hex)
    ensures HexOf(PathOf(hex)) == hex
    ensures |p.prefix| == 2 && HexOf(p) == hex ==> p == PathOf(hex)
  {
  }

  function CutPrefix(digest: string): Option<string> {
    if |digest| >= |ALGORITHM| && digest[..|ALGORITHM|] == ALGORITHM then Some(digest[|ALGORITHM|..]) else None
  }

  function TrimPrefix(digest: string): string {
    var cut := CutPrefix(digest);
    if cut.Some? then cut.value else digest
  }

  /** The prefix is taken off where there is one; other texts are left alone. */
  lemma TrimIff(digest: string, hex: string)
    ensures TrimPrefix(digest) == hex <==>
            digest == "sha256:" + hex || (digest == hex && !(|hex| >= 7 && hex[..7] == "sha256:"))
  {
    if |digest| >= 7 && digest[..7] == "sha256:" {
      assert digest == "sha256:" + digest[7..];
    }
    if digest == "sha256:" + hex {
      assert digest[..7] == "sha256:" && digest[7..] == hex;
    }
  }

  /** Every blob lies where its content hashes to. */
  ghost predicate WellAddressed(hash: Bytes -> string, blobs: Blobs) {
    forall p :: p in blobs ==> |p.prefix| == 2 && HexOf(p) == hash(blobs[p])
  }

  /** When a descriptor verifies: a stored blob of that name, of that size, with that content digest. */
  ghost predicate Verifies(hash: Bytes -> string, blobs: Blobs, desc: EvidenceDescriptor) {
    && CutPrefix(desc.digest).Some?
    && Hex64(CutPrefix(desc.digest).value)
    && var p := PathOf(CutPrefix(desc.digest).value);
       p in blobs && |blobs[p]| == desc.size && ALGORITHM + hash(blobs[p]) == desc.digest
  }

  /** A descriptor verifies exactly if its digest is the prefix and 64 lowercase hex characters, and at the path
      they name lies a blob of the stated size that hashes to them. */
  lemma VerifiesIff(hash: Bytes -> string, blobs: Blobs, desc: EvidenceDescriptor)
    ensures Verifies(hash, blobs, desc) <==>
            exists p, hex :: p in blobs && desc.digest == "sha256:" + hex && |hex| == 64
              && (forall i :: 0 <= i < 64 ==> '0' <= hex[i] <= '9' || 'a' <= hex[i] <= 'f')
              && |p.prefix| == 2 && p.prefix + p.rest == hex
              && |blobs[p]| == desc.size && hash(blobs[p]) == hex
  {
    if Verifies(hash, blobs, desc) {
      var hex := CutPrefix(desc.digest).value;
      TrimIff(desc.digest, hex);
      assert desc.digest == "sha256:" + hex;
      var p := PathOf(hex);
      assert p in blobs && p.prefix + p.rest == hex;
      assert (ALGORITHM + hash(blobs[p]))[7..] == hash(blobs[p]) && desc.digest[7..] == hex;
    }
    if p, hex :|
      && p in blobs && desc.digest == "sha256:" + hex && |hex| == 64
      && (forall i :: 0 <= i < 64 ==> '0' <= hex[i] <= '9' || 'a' <= hex[i] <= 'f')
      && |p.prefix| == 2 && p.prefix + p.rest == hex
      && |blobs[p]| == desc.size && hash(blobs[p]) == hex
    {
      assert desc.digest[..7] == "sha256:" && desc.digest[7..] == hex;
      PathRoundTrip(hex, p);
    }
  }

  ghost function Descriptor(hash: Bytes -> string, data: Bytes): EvidenceDescriptor {
    EvidenceDescriptor("", ALGORITHM + hash(data), |data|, "")
  }

  // ------------------------------------------------------------ sizes

  ghost function TotalSize(blobs: Blobs): nat {
    if blobs == map[] then 0
    else var p :| p in blobs; |blobs[p]| + TotalSize(blobs - {p})
  }

  lemma {:induction false} TakeOut(blobs: Blobs, p: BlobPath)
    requires p in blobs
    ensures TotalSize(blobs) == |blobs[p]| + TotalSize(blobs - {p})
  {
    var q :| q in blobs && TotalSize(blobs) == |blobs[q]| + TotalSize(blobs - {q});
    if q != p {
      TakeOut(blobs - {q}, p);
      TakeOut(blobs - {p}, q);
      assert blobs - {q} - {p} == blobs - {p} - {q};
    }
  }

  ghost function Only(blobs: Blobs, paths: set<BlobPath>): Blobs {
    map p | p in blobs && p in paths :: blobs[p]
  }

  /** Sizes add up over any split of the store. */
  lemma {:induction false} SplitSize(blobs: Blobs, paths: set<BlobPath>)
    ensures TotalSize(blobs) == TotalSize(Only(blobs, paths)) + TotalSize(blobs - paths)
    decreases |blobs|
  {
    if p :| p in blobs && p in paths {
      TakeOut(blobs, p);
      TakeOut(Only(blobs, paths), p);
      SplitSize(blobs - {p}, paths);
      WithoutOne(blobs, paths, p);
    } else {
      assert Only(blobs, paths) == map[];
      assert blobs - paths == blobs;
    }
  }

  lemma WithoutOne(blobs: Blobs, paths: set<BlobPath>, p: BlobPath)
    requires p in paths
    ensures Only(blobs, paths) - {p} == Only(blobs - {p}, paths)
    ensures blobs - paths == blobs - {p} - paths
  {
  }

  // ------------------------------------------------------------ what the operations do

  ghost function Imported(hash: Bytes -> string, blobs: Blobs, data: Bytes): Blobs
    requires HexHash(hash)
  {
    var p := PathOf(hash(data));
    if p in blobs then blobs else blobs[p := data]
  }

  /** Directory entries have non-empty names. */
  predicate NamedFiles(blobs: Blobs) {
    forall p :: p in blobs ==> p.prefix != "" && p.rest != ""
  }

  /** The path the collector deletes for a blob it has listed: taken apart again from the joined name,
      the first two characters naming the directory.  (No file has a shorter joined name.) */
  function Rebuilt(p: BlobPath): BlobPath {
    var hex := HexOf(p);
    if |hex| < 2 then BlobPath(hex, "") else BlobPath(hex[..2], hex[2..])
  }

  /** It is the listed path exactly in directories with names of two characters. */
  lemma RebuiltIff(p: BlobPath)
    requires p.prefix != "" && p.rest != ""
    ensures |Rebuilt(p).prefix| == 2 && HexOf(Rebuilt(p)) == HexOf(p)
    ensures Rebuilt(p) == p <==> |p.prefix| == 2
  {
  }

  /** What a collection is for: everything unreferenced goes, except files that resist removal. */
  ghost function OnlyReferenced(blobs: Blobs, referenced: set<string>, resisting: set<BlobPath>): Blobs {
    map p | p in blobs && (HexOf(p) in referenced || p in resisting) :: blobs[p]
  }

  /** What it leaves: blobs in directories of another length stay as well. */
  ghost function Collected(blobs: Blobs, referenced: set<string>, resisting: set<BlobPath>): Blobs {
    map p | p in blobs && (HexOf(p) in referenced || |p.prefix| != 2 || p in resisting) :: blobs[p]
  }

  /** The unreferenced blobs that are still there although they are reported as deleted. */
  ghost function Stranded(blobs: Blobs, referenced: set<string>, resisting: set<BlobPath>): Blobs {
    map p | p in blobs && HexOf(p) !in referenced && |p.prefix| != 2 && Rebuilt(p) !in resisting :: blobs[p]
  }

  datatype GcEntry = GcEntry(path: BlobPath, size: nat, deleted: bool)

  ghost function SizesOf(entries: seq<GcEntry>): nat {
    if entries == [] then 0 else SizesOf(entries[..|entries| - 1]) + entries[|entries| - 1].size
  }

  /** `candidates` list the unreferenced blobs, each once, with its size. */
  ghost predicate ListsUnreferenced(blobs: Blobs, referenced: set<string>, candidates: seq<GcEntry>) {
    && (forall i :: 0 <= i < |candidates| ==>
          && candidates[i].path in blobs && HexOf(candidates[i].path) !in referenced
          && candidates[i].size == |blobs[candidates[i].path]|)
    && (forall i, j :: 0 <= i < j < |candidates| ==> candidates[i].path != candidates[j].path)
    && (forall p :: p in blobs && HexOf(p) !in referenced ==>
          exists i :: 0 <= i < |candidates| && candidates[i].path == p)
  }

  /** Some evidence of the graph, if it could be read, or of an attestation carries the digest. */
  ghost predicate Mentioned(graphEvidence: Option<seq<EvidenceDescriptor>>, attested: seq<seq<EvidenceDescriptor>>,
                            digest: string)
  {
    || (graphEvidence.Some? && exists i :: 0 <= i < |graphEvidence.value| && graphEvidence.value[i].digest == digest)
    || (exists k, i :: 0 <= k < |attested| && 0 <= i < |attested[k]| && attested[k][i].digest == digest)
  }

  lemma ReferencedMeans(refs: set<string>, graphEvidence: Option<seq<EvidenceDescriptor>>,
                        attested: seq<seq<EvidenceDescriptor>>)
    requires forall hex :: hex in refs <==>
               || (graphEvidence.Some?
                   && exists i :: 0 <= i < |graphEvidence.value| && TrimPrefix(graphEvidence.value[i].digest) == hex)
               || (exists k, i ::
                     0 <= k < |attested| && 0 <= i < |attested[k]| && TrimPrefix(attested[k][i].digest) == hex)
    ensures forall hex :: hex in refs <==>
              exists digest :: Mentioned(graphEvidence, attested, digest)
                && (digest == "sha256:" + hex || (digest == hex && !(|hex| >= 7 && hex[..7] == "sha256:")))
  {
    hide TrimPrefix;
    forall hex, digest
      ensures TrimPrefix(digest) == hex <==>
              digest == "sha256:" + hex || (digest == hex && !(|hex| >= 7 && hex[..7] == "sha256:"))
    {
      TrimIff(digest, hex);
    }
    forall hex
      ensures hex in refs <==> exists digest :: Mentioned(graphEvidence, attested, digest) && TrimPrefix(digest) == hex
    {
      if hex in refs {
        if graphEvidence.Some? && exists i ::
             0 <= i < |graphEvidence.value| && TrimPrefix(graphEvidence.value[i].digest) == hex {
          var i :| 0 <= i < |graphEvidence.value| && TrimPrefix(graphEvidence.value[i].digest) == hex;
          assert Mentioned(graphEvidence, attested, graphEvidence.value[i].digest);
        } else {
          var k, i :| 0 <= k < |attested| && 0 <= i < |attested[k]| && TrimPrefix(attested[k][i].digest) == hex;
          assert Mentioned(graphEvidence, attested, attested[k][i].digest);
        }
      }
    }
  }

  class Store {
    const hash: Bytes -> string
    var blobs: Blobs

    constructor (hash: Bytes -> string)
      ensures this.hash == hash && blobs == map[]
    {
      this.hash, this.blobs := hash, map[];
    }

    /** Works on any store; one in which every blob lies where it hashes to stays so. */
    method StoreBlob(data: Bytes) returns (digest: string, size: nat, already: bool)
      requires HexHash(hash)
      modifies this`blobs
      ensures blobs == Imported(hash, old(blobs), data)
      ensures old(WellAddressed(hash, blobs)) ==> WellAddressed(hash, blobs)
      ensures digest == ALGORITHM + hash(data) && size == |data|
      ensures already <==> PathOf(hash(data)) in old(blobs)
      ensures forall p :: p in old(blobs) ==> p in blobs && blobs[p] == old(blobs)[p]
      ensures forall p :: p in blobs && p !in old(blobs) ==>
                blobs[p] == data && |p.prefix| == 2 && p.prefix + p.rest == hash(data)
      ensures exists p :: p in blobs && |p.prefix| == 2 && p.prefix + p.rest == hash(data)
    {
      var hex := hash(data);
      var p := PathOf(hex);
      PathRoundTrip(hex, p);
      if p in blobs { return ALGORITHM + hex, |data|, true; }
      blobs := blobs[p := data];
      return ALGORITHM + hex, |data|, false;
    }

    method ParseDigest(digest: string) returns (hex: Option<string>, err: VerifyError)
      ensures hex.Some? <==> CutPrefix(digest).Some? && Hex64(CutPrefix(digest).value)
      ensures hex.Some? ==> hex == CutPrefix(digest)
      ensures hex.None? ==> err == if CutPrefix(digest).None? then UnsupportedAlgorithm else InvalidDigest
    {
      err := UnsupportedAlgorithm;
      hex := CutPrefix(digest);
      if hex.None? { return; }
      if !Hex64(hex.value) { return None, InvalidDigest; }
    }

    /** Opening reads whatever lies at the path of a well-formed digest, in any store; in a
        well-addressed one that is content of that digest, and nothing is missed. */
    method Open(digest: string) returns (data: Option<Bytes>)
      requires HexHash(hash)
      ensures data.Some? <==> CutPrefix(digest).Some? && Hex64(CutPrefix(digest).value)
                              && PathOf(CutPrefix(digest).value) in blobs
      ensures data.Some? ==> data.value == blobs[PathOf(CutPrefix(digest).value)]
      ensures WellAddressed(hash, blobs) ==>
                && (data.Some? ==> ALGORITHM + hash(data.value) == digest)
                && (data.None? ==> forall p :: p in blobs ==> ALGORITHM + hash(blobs[p]) != digest)
    {
      var hex, _ := ParseDigest(digest);
      if WellAddressed(hash, blobs) {
        forall p | p in blobs && ALGORITHM + hash(blobs[p]) == digest
          ensures hex.Some? && p == PathOf(hex.value)
        {
          assert CutPrefix(digest) == Some(hash(blobs[p]));
          PathRoundTrip(hash(blobs[p]), p);
        }
      }
      if hex.None? { return None; }
      var p := PathOf(hex.value);
      if p !in blobs { return None; }
      PathRoundTrip(hex.value, p);
      assert digest == ALGORITHM + hex.value;
      return Some(blobs[p]);
    }

    /** Verification holds against any store, tampered with or not; only in a store that is not
        well addressed can it report a digest mismatch. */
    method Verify(desc: EvidenceDescriptor) returns (err: Option<VerifyError>)
      requires HexHash(hash)
      ensures err.None? <==> Verifies(hash, blobs, desc)
      ensures WellAddressed(hash, blobs) ==> err != Some(DigestMismatch)
    {
      var hex, parseErr := ParseDigest(desc.digest);
      if hex.None? { return Some(parseErr); }
      var p := PathOf(hex.value);
      PathRoundTrip(hex.value, p);
      assert desc.digest == ALGORITHM + hex.value;
      if p !in blobs { return Some(NotFound); }
      if |blobs[p]| != desc.size { return Some(SizeMismatch); }
      if ALGORITHM + hash(blobs[p]) != desc.digest { return Some(DigestMismatch); }
      return None;
    }

    method Referenced(graphEvidence: Option<seq<EvidenceDescriptor>>, attested: seq<seq<EvidenceDescriptor>>)
      returns (refs: set<string>)
      ensures forall hex :: hex in refs <==>
                || (graphEvidence.Some?
                    && exists i :: 0 <= i < |graphEvidence.value| && TrimPrefix(graphEvidence.value[i].digest) == hex)
                || (exists k, i ::
                      0 <= k < |attested| && 0 <= i < |attested[k]| && TrimPrefix(attested[k][i].digest) == hex)
      ensures forall hex :: hex in refs <==>
                exists digest :: Mentioned(graphEvidence, attested, digest)
                  && (digest == "sha256:" + hex || (digest == hex && !(|hex| >= 7 && hex[..7] == "sha256:")))
    {
      refs := {};
      if graphEvidence.Some? {
        refs := TrimAll(graphEvidence.value);
      }
      ghost var fromGraph := refs;
      for k := 0 to |attested|
        invariant forall hex :: hex in refs <==>
                    || hex in fromGraph
                    || exists j, i :: 0 <= j < k && 0 <= i < |attested[j]| && TrimPrefix(attested[j][i].digest) == hex
      {
        var more := TrimAll(attested[k]);
        refs := refs + more;
      }
      ReferencedMeans(refs, graphEvidence, attested);
    }

    method TrimAll(evidence: seq<EvidenceDescriptor>) returns (refs: set<string>)
      ensures forall hex :: hex in refs <==> exists i :: 0 <= i < |evidence| && TrimPrefix(evidence[i].digest) == hex
    {
      refs := {};
      for i := 0 to |evidence|
        invariant forall hex :: hex in refs <==> exists j :: 0 <= j < i && TrimPrefix(evidence[j].digest) == hex
      {
        refs := refs + {TrimPrefix(evidence[i].digest)};
      }
    }

    method Candidates(referenced: set<string>) returns (candidates: seq<GcEntry>)
      ensures ListsUnreferenced(blobs, referenced, candidates)
      ensures forall i :: 0 <= i < |candidates| ==> !candidates[i].deleted
    {
      candidates := [];
      var todo := blobs.Keys;
      while todo != {}
        invariant todo <= blobs.Keys
        invariant ListsUnreferenced(map p | p in blobs && p !in todo :: blobs[p], referenced, candidates)
        invariant forall i :: 0 <= i < |candidates| ==> !candidates[i].deleted
      {
        var p :| p in todo;
        ghost var before := candidates;
        todo := todo - {p};
        if HexOf(p) !in referenced {
          candidates := candidates + [GcEntry(p, |blobs[p]|, false)];
          assert candidates[|before|].path == p;
        }
        assert forall i :: 0 <= i < |before| ==> candidates[i] == before[i];
      }
      assert (map p | p in blobs && p !in todo :: blobs[p]) == blobs;
    }

    /** Collects garbage.  A dry run deletes nothing and reports what a collection is meant to free;
        without confirmation nothing happens; `resisting` files cannot be removed.  What is reported
        as freed is the drop in size plus the size of what was stranded. */
    method Gc(referenced: set<string>, dryRun: bool, confirmed: bool, resisting: set<BlobPath>)
      returns (entries: seq<GcEntry>, freed: nat)
      requires NamedFiles(blobs)
      modifies this`blobs
      ensures old(WellAddressed(hash, blobs)) ==> WellAddressed(hash, blobs)
      ensures dryRun || !confirmed ==> blobs == old(blobs)
      ensures !dryRun && confirmed ==> blobs == Collected(old(blobs), referenced, resisting)
      ensures !dryRun && confirmed ==>
                freed == TotalSize(old(blobs)) - TotalSize(blobs)
                         + TotalSize(Stranded(old(blobs), referenced, resisting))
      ensures dryRun ==> freed == TotalSize(blobs) - TotalSize(OnlyReferenced(blobs, referenced, {}))
      ensures !dryRun && !confirmed ==> freed == 0
      ensures ListsUnreferenced(old(blobs), referenced, entries)
      ensures forall i :: 0 <= i < |entries| ==>
                (entries[i].deleted <==> !dryRun && confirmed && Rebuilt(entries[i].path) !in resisting)
    {
      hide HexOf, Rebuilt, TotalSize, FreedBy, SizesOf, ListsUnreferenced, Collected, OnlyReferenced, Stranded;
      hide WellAddressed, NamedFiles;
      var candidates := Candidates(referenced);
      CollectedWellAddressed(hash, blobs, referenced, resisting);
      if !dryRun && |candidates| > 0 && !confirmed { return candidates, 0; }
      if dryRun {
        freed := SumSizes(candidates);
        CandidateSizes(blobs, referenced, candidates);
        return candidates, freed;
      }
      NothingToCollect(blobs, referenced, candidates, resisting);
      entries, freed := Delete(referenced, candidates, resisting);
      FreedBalance(old(blobs), referenced, candidates, resisting);
      FlagsDoNotMatter(old(blobs), referenced, candidates, entries);
    }

    /** The whole command: what the evidence of graph and attestations mentions stays, with the prefix or,
        if it does not itself begin with the prefix, without; of the rest everything goes that lies in a
        directory with a name of two characters and can be removed. */
    method CollectGarbage(graphEvidence: Option<seq<EvidenceDescriptor>>, attested: seq<seq<EvidenceDescriptor>>,
                          dryRun: bool, confirmed: bool, resisting: set<BlobPath>)
      returns (entries: seq<GcEntry>, freed: nat)
      requires NamedFiles(blobs)
      modifies this`blobs
      ensures forall p :: p in blobs ==> p in old(blobs) && blobs[p] == old(blobs)[p]
      ensures forall p :: p in old(blobs) && Mentioned(graphEvidence, attested, "sha256:" + p.prefix + p.rest) ==>
                p in blobs
      ensures dryRun || !confirmed ==> blobs == old(blobs)
      ensures !dryRun && confirmed ==>
                forall p :: p in blobs <==>
                  p in old(blobs) && (|| |p.prefix| != 2
                                      || p in resisting
                                      || Mentioned(graphEvidence, attested, "sha256:" + p.prefix + p.rest)
                                      || (Mentioned(graphEvidence, attested, p.prefix + p.rest)
                                          && !("sha256:" <= p.prefix + p.rest)))
    {
      hide Mentioned, TotalSize, Stranded, OnlyReferenced, ListsUnreferenced, Rebuilt, TrimPrefix;
      var referenced := Referenced(graphEvidence, attested);
      entries, freed := Gc(referenced, dryRun, confirmed, resisting);
      forall p | p in old(blobs)
        ensures HexOf(p) in referenced <==>
                || Mentioned(graphEvidence, attested, "sha256:" + p.prefix + p.rest)
                || (Mentioned(graphEvidence, attested, p.prefix + p.rest) && !("sha256:" <= p.prefix + p.rest))
      {
        assert "sha256:" + p.prefix + p.rest == "sha256:" + HexOf(p);
        assert "sha256:" <= HexOf(p) <==> |HexOf(p)| >= 7 && HexOf(p)[..7] == "sha256:";
      }
    }

    method SumSizes(entries: seq<GcEntry>) returns (sum: nat)
      ensures sum == SizesOf(entries)
    {
      sum := 0;
      for i := 0 to |entries|
        invariant sum == SizesOf(entries[..i])
      {
        assert entries[..i + 1][..i] == entries[..i];
        sum := sum + entries[i].size;
      }
      assert entries[..|entries|] == entries;
    }

    /** Removing a path at which nothing lies counts as having deleted it. */
    method Delete(ghost referenced: set<string>, candidates: seq<GcEntry>, resisting: set<BlobPath>)
      returns (entries: seq<GcEntry>, freed: nat)
      requires NamedFiles(blobs) && ListsUnreferenced(blobs, referenced, candidates)
      requires forall i :: 0 <= i < |candidates| ==> !candidates[i].deleted
      modifies this`blobs
      ensures blobs == Collected(old(blobs), referenced, resisting)
      ensures freed == FreedBy(candidates, resisting)
      ensures |entries| == |candidates|
      ensures forall i :: 0 <= i < |entries| ==>
                entries[i] == candidates[i].(deleted := Rebuilt(candidates[i].path) !in resisting)
    {
      hide Swept, Collected, ListsUnreferenced, Rebuilt;
      SweepNone(blobs, resisting);
      entries, freed := candidates, 0;
      for i := 0 to |candidates|
        invariant |entries| == |candidates|
        invariant forall k :: i <= k < |entries| ==> entries[k] == candidates[k]
        invariant forall k :: 0 <= k < i ==>
                    entries[k] == candidates[k].(deleted := Rebuilt(candidates[k].path) !in resisting)
        invariant blobs == Swept(old(blobs), candidates[..i], resisting)
        invariant freed == FreedBy(candidates[..i], resisting)
      {
        var c := candidates[i];
        assert candidates[..i + 1][..i] == candidates[..i];
        SweepOne(old(blobs), candidates, i, resisting);
        var blobPath := Rebuilt(c.path);
        if blobPath !in resisting {
          blobs := blobs - {blobPath};
          entries := entries[i := c.(deleted := true)];
          freed := freed + c.size;
        }
      }
      assert candidates[..|candidates|] == candidates;
      SweptAll(old(blobs), referenced, candidates, resisting);
    }
  }

  ghost function RebuiltPaths(entries: seq<GcEntry>): set<BlobPath> {
    set i | 0 <= i < |entries| :: Rebuilt(entries[i].path)
  }

  ghost function Swept(blobs: Blobs, entries: seq<GcEntry>, resisting: set<BlobPath>): Blobs {
    blobs - (RebuiltPaths(entries) - resisting)
  }

  /** The sizes reported as freed. */
  ghost function FreedBy(entries: seq<GcEntry>, resisting: set<BlobPath>): nat {
    if entries == [] then 0
    else
      var last := entries[|entries| - 1];
      FreedBy(entries[..|entries| - 1], resisting) + if Rebuilt(last.path) in resisting then 0 else last.size
  }

  lemma SweepNone(blobs: Blobs, resisting: set<BlobPath>)
    ensures Swept(blobs, [], resisting) == blobs
  {
  }

  lemma SweepOne(blobs: Blobs, candidates: seq<GcEntry>, i: nat, resisting: set<BlobPath>)
    requires i < |candidates|
    ensures Swept(blobs, candidates[..i + 1], resisting)
            == if Rebuilt(candidates[i].path) in resisting then Swept(blobs, candidates[..i], resisting)
               else Swept(blobs, candidates[..i], resisting) - {Rebuilt(candidates[i].path)}
  {
    hide Rebuilt;
    var c := Rebuilt(candidates[i].path);
    assert RebuiltPaths(candidates[..i + 1]) == RebuiltPaths(candidates[..i]) + {c} by {
      forall p | p in RebuiltPaths(candidates[..i]) ensures p in RebuiltPaths(candidates[..i + 1]) {
        var k :| 0 <= k < i && Rebuilt(candidates[..i][k].path) == p;
        assert candidates[..i + 1][k] == candidates[k];
      }
      assert candidates[..i + 1][i] == candidates[i];
    }
  }

  lemma SweptAll(blobs: Blobs, referenced: set<string>, candidates: seq<GcEntry>, resisting: set<BlobPath>)
    requires NamedFiles(blobs) && ListsUnreferenced(blobs, referenced, candidates)
    ensures Swept(blobs, candidates, resisting) == Collected(blobs, referenced, resisting)
  {
    hide Rebuilt;
    forall p | p in blobs ensures p in RebuiltPaths(candidates) <==> HexOf(p) !in referenced && |p.prefix| == 2 {
      RebuiltIff(p);
      if i :| 0 <= i < |candidates| && Rebuilt(candidates[i].path) == p {
        RebuiltIff(candidates[i].path);
      }
      if HexOf(p) !in referenced && |p.prefix| == 2 {
        var i :| 0 <= i < |candidates| && candidates[i].path == p;
      }
    }
  }

  lemma NothingToCollect(blobs: Blobs, referenced: set<string>, candidates: seq<GcEntry>, resisting: set<BlobPath>)
    requires ListsUnreferenced(blobs, referenced, candidates)
    ensures candidates == [] ==> Collected(blobs, referenced, resisting) == blobs && FreedBy(candidates, resisting) == 0
  {
  }

  lemma FlagsDoNotMatter(blobs: Blobs, referenced: set<string>, candidates: seq<GcEntry>, entries: seq<GcEntry>)
    requires ListsUnreferenced(blobs, referenced, candidates) && |entries| == |candidates|
    requires forall i :: 0 <= i < |entries| ==>
               entries[i].path == candidates[i].path && entries[i].size == candidates[i].size
    ensures ListsUnreferenced(blobs, referenced, entries)
  {
    hide HexOf;
    forall p | p in blobs && HexOf(p) !in referenced ensures exists i :: 0 <= i < |entries| && entries[i].path == p {
      var i :| 0 <= i < |candidates| && candidates[i].path == p;
      assert entries[i].path == p;
    }
  }

  lemma CollectedWellAddressed(hash: Bytes -> string, blobs: Blobs, referenced: set<string>, resisting: set<BlobPath>)
    ensures WellAddressed(hash, blobs) ==> WellAddressed(hash, Collected(blobs, referenced, resisting))
  {
    hide HexOf;
  }

  // ------------------------------------------------------------ sizes of what is listed

  /** The listed paths that are reported as deleted. */
  ghost function Reported(entries: seq<GcEntry>, resisting: set<BlobPath>): set<BlobPath> {
    set i | 0 <= i < |entries| && Rebuilt(entries[i].path) !in resisting :: entries[i].path
  }

  lemma ReportedSnoc(entries: seq<GcEntry>, c: GcEntry, resisting: set<BlobPath>)
    ensures Reported(entries + [c], resisting)
            == Reported(entries, resisting) + if Rebuilt(c.path) in resisting then {} else {c.path}
  {
    hide Rebuilt;
    var more := entries + [c];
    assert more[|entries|] == c;
    assert forall i :: 0 <= i < |entries| ==> more[i] == entries[i];
  }

  /** Distinct entries that give the sizes of stored blobs. */
  ghost predicate Sized(blobs: Blobs, entries: seq<GcEntry>) {
    && (forall i :: 0 <= i < |entries| ==> entries[i].path in blobs && entries[i].size == |blobs[entries[i].path]|)
    && forall i, j :: 0 <= i < j < |entries| ==> entries[i].path != entries[j].path
  }

  lemma ListedSized(blobs: Blobs, referenced: set<string>, candidates: seq<GcEntry>)
    requires ListsUnreferenced(blobs, referenced, candidates)
    ensures Sized(blobs, candidates)
  {
    hide HexOf;
  }

  lemma SizedSnoc(blobs: Blobs, entries: seq<GcEntry>, c: GcEntry, resisting: set<BlobPath>)
    requires Sized(blobs, entries + [c])
    ensures Sized(blobs, entries) && c.path in blobs && c.size == |blobs[c.path]|
    ensures c.path !in Reported(entries, resisting)
  {
    hide Rebuilt;
    var more := entries + [c];
    assert more[|entries|] == c;
    assert forall i :: 0 <= i < |entries| ==> more[i] == entries[i];
  }

  lemma OnlyOneMore(blobs: Blobs, paths: set<BlobPath>, p: BlobPath)
    requires p in blobs && p !in paths
    ensures TotalSize(Only(blobs, paths + {p})) == |blobs[p]| + TotalSize(Only(blobs, paths))
  {
    var now := Only(blobs, paths + {p});
    TakeOut(now, p);
    assert now - {p} == Only(blobs, paths);
  }

  lemma {:induction false} FreedIsReported(blobs: Blobs, entries: seq<GcEntry>, resisting: set<BlobPath>)
    requires Sized(blobs, entries)
    ensures FreedBy(entries, resisting) == TotalSize(Only(blobs, Reported(entries, resisting)))
  {
    hide Rebuilt, Sized, Only, Reported, TotalSize;
    if entries == [] {
      NothingReported(blobs, resisting);
    } else {
      var init, c := entries[..|entries| - 1], entries[|entries| - 1];
      assert entries == init + [c];
      SizedSnoc(blobs, init, c, resisting);
      ReportedSnoc(init, c, resisting);
      FreedIsReported(blobs, init, resisting);
      assert Reported(init, resisting) + {} == Reported(init, resisting);
      if Rebuilt(c.path) !in resisting { OnlyOneMore(blobs, Reported(init, resisting), c.path); }
    }
  }

  lemma NothingReported(blobs: Blobs, resisting: set<BlobPath>)
    ensures TotalSize(Only(blobs, Reported([], resisting))) == 0
  {
    assert Only(blobs, Reported([], resisting)) == map[];
  }

  lemma ReportedIs(blobs: Blobs, referenced: set<string>, candidates: seq<GcEntry>, resisting: set<BlobPath>)
    requires NamedFiles(blobs) && ListsUnreferenced(blobs, referenced, candidates)
    ensures Reported(candidates, resisting)
            == set p | p in blobs && HexOf(p) !in referenced && Rebuilt(p) !in resisting
  {
    hide Rebuilt;
  }

  /** What is reported as freed is the drop in total size plus the size of what was stranded. */
  lemma FreedBalance(blobs: Blobs, referenced: set<string>, candidates: seq<GcEntry>, resisting: set<BlobPath>)
    requires NamedFiles(blobs) && ListsUnreferenced(blobs, referenced, candidates)
    ensures FreedBy(candidates, resisting) == TotalSize(blobs) - TotalSize(Collected(blobs, referenced, resisting))
                                              + TotalSize(Stranded(blobs, referenced, resisting))
  {
    hide Rebuilt, HexOf, TotalSize, Reported, ListsUnreferenced;
    var reported := Reported(candidates, resisting);
    ReportedIs(blobs, referenced, candidates, resisting);
    ListedSized(blobs, referenced, candidates);
    FreedIsReported(blobs, candidates, resisting);
    var stranded := set p | p in reported && |p.prefix| != 2;
    SplitSize(Only(blobs, reported), stranded);
    SplitSize(blobs, reported - stranded);
    SplitParts(blobs, referenced, resisting, reported, stranded);
  }

  lemma SplitParts(blobs: Blobs, referenced: set<string>, resisting: set<BlobPath>, reported: set<BlobPath>,
                   stranded: set<BlobPath>)
    requires NamedFiles(blobs)
    requires reported == set p | p in blobs && HexOf(p) !in referenced && Rebuilt(p) !in resisting
    requires stranded == set p | p in reported && |p.prefix| != 2
    ensures Only(Only(blobs, reported), stranded) == Stranded(blobs, referenced, resisting)
    ensures Only(blobs, reported) - stranded == Only(blobs, reported - stranded)
    ensures blobs - (reported - stranded) == Collected(blobs, referenced, resisting)
  {
    hide Rebuilt, HexOf;
    forall p | p in blobs && |p.prefix| == 2 ensures Rebuilt(p) == p { RebuiltIff(p); }
  }

  /** The sizes listed add up to what a collection is meant to free. */
  lemma CandidateSizes(blobs: Blobs, referenced: set<string>, candidates: seq<GcEntry>)
    requires NamedFiles(blobs) && ListsUnreferenced(blobs, referenced, candidates)
    ensures SizesOf(candidates) == TotalSize(blobs) - TotalSize(OnlyReferenced(blobs, referenced, {}))
  {
    FreedIsReported(blobs, candidates, {});
    ReportedIs(blobs, referenced, candidates, {});
    SplitSize(blobs, Reported(candidates, {}));
    assert blobs - Reported(candidates, {}) == OnlyReferenced(blobs, referenced, {});
    AllFreed(candidates);
  }

  lemma {:induction false} AllFreed(entries: seq<GcEntry>)
    ensures FreedBy(entries, {}) == SizesOf(entries)
  {
    if entries != [] { AllFreed(entries[..|entries| - 1]); }
  }

  // ------------------------------------------------------------ when a collection does what it is for

  /** A collection leaves just what it should exactly if every unreferenced blob that does not resist lies
      in a directory with a name of two characters. */
  lemma CollectsAllIff(blobs: Blobs, referenced: set<string>, resisting: set<BlobPath>)
    ensures Collected(blobs, referenced, resisting) == OnlyReferenced(blobs, referenced, resisting)
            <==> forall p :: p in blobs && HexOf(p) !in referenced && p !in resisting ==> |p.prefix| == 2
  {
    hide HexOf;
    var c, o := Collected(blobs, referenced, resisting), OnlyReferenced(blobs, referenced, resisting);
    if c == o {
      forall p | p in blobs && HexOf(p) !in referenced && p !in resisting ensures |p.prefix| == 2 {
        assert p !in o;
      }
    }
    if forall p :: p in blobs && HexOf(p) !in referenced && p !in resisting ==> |p.prefix| == 2 {
      assert c == o;
    }
  }

  /** What it reports as freed is what it freed exactly if nothing but empty blobs is stranded. */
  lemma ReportsDropIff(blobs: Blobs, referenced: set<string>, candidates: seq<GcEntry>, resisting: set<BlobPath>)
    requires NamedFiles(blobs) && ListsUnreferenced(blobs, referenced, candidates)
    ensures FreedBy(candidates, resisting) == TotalSize(blobs) - TotalSize(Collected(blobs, referenced, resisting))
            <==> forall p :: p in blobs && HexOf(p) !in referenced && |p.prefix| != 2 && Rebuilt(p) !in resisting ==>
                   blobs[p] == []
  {
    hide Rebuilt, HexOf;
    FreedBalance(blobs, referenced, candidates, resisting);
    var s := Stranded(blobs, referenced, resisting);
    NoSizeIff(s);
    assert forall p :: p in s ==> s[p] == blobs[p];
    if forall p :: p in s ==> s[p] == [] {
      forall p | p in blobs && HexOf(p) !in referenced && |p.prefix| != 2 && Rebuilt(p) !in resisting
        ensures blobs[p] == []
      {
        assert p in s;
      }
    }
  }

  lemma {:induction false} NoSizeIff(blobs: Blobs)
    ensures TotalSize(blobs) == 0 <==> forall p :: p in blobs ==> blobs[p] == []
    decreases |blobs|
  {
    if p :| p in blobs {
      TakeOut(blobs, p);
      NoSizeIff(blobs - {p});
      assert forall q :: q in blobs ==> q == p || q in blobs - {p};
    }
  }

  /** A blob in a directory with a name of three characters: listed, reported as deleted and freed, and
      still there. */
  lemma ThreeCharacterDirectory(data: Bytes)
    ensures var p := BlobPath("abc", "def");
            var blobs: Blobs := map[p := data];
            && ListsUnreferenced(blobs, {}, [GcEntry(p, |data|, false)])
            && FreedBy([GcEntry(p, |data|, false)], {}) == |data|
            && Collected(blobs, {}, {}) == blobs && OnlyReferenced(blobs, {}, {}) == map[]
  {
    var p := BlobPath("abc", "def");
    var blobs: Blobs := map[p := data];
    var entries := [GcEntry(p, |data|, false)];
    assert entries[0].path == p;
    assert FreedBy(entries[..0], {}) == 0;
  }

  // ------------------------------------------------------------ histories

  datatype Op = Import(data: Bytes) | Collect(referenced: set<string>, resisting: set<BlobPath>)

  ghost function After(hash: Bytes -> string, ops: seq<Op>): Blobs
    requires HexHash(hash)
  {
    if ops == [] then map[]
    else
      var before := After(hash, ops[..|ops| - 1]);
      match ops[|ops| - 1]
      case Import(data) => Imported(hash, before, data)
      case Collect(referenced, resisting) => Collected(before, referenced, resisting)
  }

  /** After any history every blob hashes to its name, and came from some import. */
  lemma {:induction false} HistoryWellAddressed(hash: Bytes -> string, ops: seq<Op>)
    requires HexHash(hash)
    ensures WellAddressed(hash, After(hash, ops))
    ensures forall p :: p in After(hash, ops) ==> Import(After(hash, ops)[p]) in ops
  {
    if ops != [] {
      var init, last := ops[..|ops| - 1], ops[|ops| - 1];
      HistoryWellAddressed(hash, init);
      assert ops == init + [last];
      if last.Import? { PathRoundTrip(hash(last.data), PathOf(hash(last.data))); }
    }
  }

  /** No collection after step `i` fails to reference `hex`. */
  ghost predicate AlwaysReferenced(ops: seq<Op>, i: nat, hex: string) {
    forall j :: i < j < |ops| && ops[j].Collect? ==> hex in ops[j].referenced
  }

  lemma {:induction false} ReferencedStays(hash: Bytes -> string, ops: seq<Op>, i: nat)
    requires HexHash(hash) && i < |ops| && ops[i].Import? && AlwaysReferenced(ops, i, hash(ops[i].data))
    ensures PathOf(hash(ops[i].data)) in After(hash, ops)
  {
    var init, last := ops[..|ops| - 1], ops[|ops| - 1];
    if i < |ops| - 1 {
      assert init[i] == ops[i];
      ReferencedStays(hash, init, i);
      PathRoundTrip(hash(ops[i].data), PathOf(hash(ops[i].data)));
      assert last == ops[|ops| - 1];
    }
  }

  /** An imported blob that every later collection references is still stored under its digest,
      and it verifies with the size it had exactly when what is stored there has that size:
      always, unless the history imported other content with the same digest. */
  lemma ImportedVerifies(hash: Bytes -> string, ops: seq<Op>, i: nat)
    requires HexHash(hash) && i < |ops| && ops[i].Import? && AlwaysReferenced(ops, i, hash(ops[i].data))
    ensures var data, blobs := ops[i].data, After(hash, ops);
            && PathOf(hash(data)) in blobs
            && (Verifies(hash, blobs, Descriptor(hash, data)) <==> |blobs[PathOf(hash(data))]| == |data|)
            && ((forall b :: Import(b) in ops && hash(b) == hash(data) ==> b == data) ==>
                  Verifies(hash, blobs, Descriptor(hash, data)))
  {
    var data, blobs := ops[i].data, After(hash, ops);
    ReferencedStays(hash, ops, i);
    HistoryWellAddressed(hash, ops);
    var p := PathOf(hash(data));
    PathRoundTrip(hash(data), p);
    assert CutPrefix(ALGORITHM + hash(data)) == Some(hash(data));
    assert Import(blobs[p]) in ops;
  }

  /** An import whose descriptor some evidence carries outlives a collection with what is referenced then. */
  lemma ReferencedImportStays(hash: Bytes -> string, blobs: Blobs, data: Bytes, refs: set<string>,
                              graphEvidence: Option<seq<EvidenceDescriptor>>, attested: seq<seq<EvidenceDescriptor>>,
                              resisting: set<BlobPath>)
    requires HexHash(hash) && Mentioned(graphEvidence, attested, Descriptor(hash, data).digest)
    requires forall hex :: hex in refs <==>
               exists digest :: Mentioned(graphEvidence, attested, digest)
                 && (digest == "sha256:" + hex || (digest == hex && !(|hex| >= 7 && hex[..7] == "sha256:")))
    ensures PathOf(hash(data)) in Collected(Imported(hash, blobs, data), refs, resisting)
  {
    PathRoundTrip(hash(data), PathOf(hash(data)));
    assert hash(data) in refs;
  }

  /** A collection without removal errors leaves exactly the referenced blobs if and only if unreferenced
      ones lie in directories with names of two characters, as in a well-addressed store they do; a
      second collection changes nothing. */
  lemma CollectExact(hash: Bytes -> string, blobs: Blobs, referenced: set<string>)
    ensures Collected(blobs, referenced, {}).Keys == (set p | p in blobs && HexOf(p) in referenced)
            <==> forall p :: p in blobs && HexOf(p) !in referenced ==> |p.prefix| == 2
    ensures WellAddressed(hash, blobs) ==>
              Collected(blobs, referenced, {}).Keys == set p | p in blobs && HexOf(p) in referenced
    ensures Collected(Collected(blobs, referenced, {}), referenced, {}) == Collected(blobs, referenced, {})
  {
    hide HexOf;
    var kept := Collected(blobs, referenced, {}).Keys;
    assert kept == set p | p in blobs && (HexOf(p) in referenced || |p.prefix| != 2);
    if kept == (set p | p in blobs && HexOf(p) in referenced) {
      forall p | p in blobs && HexOf(p) !in referenced ensures |p.prefix| == 2 {
        assert p !in kept;
      }
    }
  }
}
