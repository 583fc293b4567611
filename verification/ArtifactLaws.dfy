/** What an accepted artifact manifest is worth: the eleven names it lists, and the files it vouches for. */
module ArtifactLaws {
  import opened Outcomes
  import opened Artifacts

  /** The eleven required artifacts, by name. */
  lemma RequiredAreListed(p: Platform, manifest: Manifest, directory: Directory)
    requires ValidManifest(p, manifest, directory)
    ensures var items := manifest.items;
      && ListsRequired(items, RunManifest) && ListsRequired(items, PreprocessingSummary)
      && ListsRequired(items, PartitionSummary) && ListsRequired(items, FeatureSchema)
      && ListsRequired(items, AnchorSummary) && ListsRequired(items, Metrics)
      && ListsRequired(items, AlarmTable) && ListsRequired(items, Diagnostics)
      && forall agent :: 1 <= agent <= 3 ==> ListsRequired(items, Results(agent))
  {
    hide ListsRequired, AllMatch, UniqueNames;
    assert {RunManifest, PreprocessingSummary, PartitionSummary, FeatureSchema, AnchorSummary, Metrics,
            Results(1), Results(2), Results(3), AlarmTable, Diagnostics} <= REQUIRED;
  }

  /** No two different files have the same digest. */
  ghost predicate NeverCollides(digest: Bytes -> string) {
    forall x, y :: digest(x) == digest(y) ==> x == y
  }

  /**
   A manifest accepted for two directories finds every file it lists in both, with one size and one digest; where
   digests never collide it is the same file.
   */
  lemma AcceptedDirectoriesAgree(p: Platform, manifest: Manifest, one: Directory, other: Directory, i: nat)
    requires ValidManifest(p, manifest, one) && ValidManifest(p, manifest, other) && i < |manifest.items|
    ensures var name := manifest.items[i].name;
      && name in one && name in other
      && |one[name]| == |other[name]| == manifest.items[i].size
      && p.digest(one[name]) == p.digest(other[name]) == manifest.items[i].digest
      && (NeverCollides(p.digest) ==> one[name] == other[name])
  {
    hide ListsAllRequired, UniqueNames;
    assert Matches(p, manifest.items[i], one) && Matches(p, manifest.items[i], other);
  }

  /** A file that is not listed does not matter; changing the size or the digest of a listed one is refused. */
  lemma AcceptedAfterChangeExactlyWhen(p: Platform, manifest: Manifest, directory: Directory, name: Name, data: Bytes)
    requires ValidManifest(p, manifest, directory)
    ensures ValidManifest(p, manifest, directory[name := data])
      <==> forall i :: 0 <= i < |manifest.items| && manifest.items[i].name == name ==>
             |data| == |directory[name]| && p.digest(data) == p.digest(directory[name])
  {
    hide ListsAllRequired, UniqueNames;
    forall i | 0 <= i < |manifest.items|
      ensures Matches(p, manifest.items[i], directory)
    {
    }
  }
}
