/** The two-repository catalog cutover (catalog_cutover.py): results are committed first,
    then an index that names the revision they were committed at.  Both commits use the
    plan's expected head as parent, and markers make an interrupted cutover resumable. */
module CatalogCutover {
  import opened Common
  import opened OptimisticRepository

  datatype Classification = Classification(isFinal: bool, details: string)

  datatype Plan = Plan(
    cutoverId: string, expectedResultHead: nat, expectedIndexHead: nat, classifications: map<string, Classification>)

  /** The result dataset: publication files and cutover markers. */
  datatype ResultTree = ResultTree(files: map<string, string>, markers: map<string, Plan>)

  datatype Row = Row(classification: Classification, resultRevision: nat)

  /** The index dataset: the audit and primary catalogs, legacy catalogs, cutover markers. */
  datatype IndexTree = IndexTree(audit: map<string, Row>, primary: set<string>, legacy: set<string>, markers: map<string, Plan>)

  datatype Answer = Completed(resultRevision: nat, indexRevision: nat) | Moved | InvalidPlan | CatalogConflict | FilesConflict | Failure

  function Published(base: ResultTree, plan: Plan, files: map<string, string>): ResultTree {
    ResultTree(base.files + files, base.markers[plan.cutoverId := plan])
  }

  function Finals(plan: Plan): set<string> {
    set id | id in plan.classifications && plan.classifications[id].isFinal
  }

  function Indexed(base: IndexTree, plan: Plan, resultRevision: nat): IndexTree {
    IndexTree(
      map id | id in plan.classifications :: Row(plan.classifications[id], resultRevision),
      Finals(plan), {}, base.markers[plan.cutoverId := plan])
  }

  /** The index carries exactly this plan, all of it at one result revision. */
  predicate Carries(t: IndexTree, plan: Plan, resultRevision: nat) {
    && Lookup(t.markers, plan.cutoverId) == Some(plan)
    && t.primary == Finals(plan)
    && t.audit == map id | id in plan.classifications :: Row(plan.classifications[id], resultRevision)
  }

  /** The index lists exactly the final publications in its primary catalog, and in its audit
      catalog exactly the classifications, each at this result revision; its marker is the
      plan. */
  ghost predicate Lists(t: IndexTree, plan: Plan, resultRevision: nat) {
    && (forall id :: id in t.primary <==> id in plan.classifications && plan.classifications[id].isFinal)
    && (forall id :: id in t.audit <==> id in plan.classifications)
    && (forall id | id in t.audit :: t.audit[id] == Row(plan.classifications[id], resultRevision))
    && plan.cutoverId in t.markers && t.markers[plan.cutoverId] == plan
  }

  /** What a commit of the plan leaves of the index before it: nothing of the legacy catalogs,
      and every other marker. */
  ghost predicate Replaces(t: IndexTree, before: IndexTree, plan: Plan) {
    && t.legacy == {}
    && (forall id :: id in t.markers <==> id in before.markers || id == plan.cutoverId)
    && (forall id | id in before.markers && id != plan.cutoverId :: t.markers[id] == before.markers[id])
  }

  /** What a commit of the plan leaves in the results: all files it publishes, with the plan as
      marker, and every other file and marker. */
  ghost predicate Publishes(t: ResultTree, before: ResultTree, plan: Plan, files: map<string, string>) {
    && (forall path | path in files :: path in t.files && t.files[path] == files[path])
    && (forall path :: path in t.files <==> path in before.files || path in files)
    && (forall path | path in before.files && path !in files :: t.files[path] == before.files[path])
    && plan.cutoverId in t.markers && t.markers[plan.cutoverId] == plan
    && (forall id :: id in t.markers <==> id in before.markers || id == plan.cutoverId)
    && (forall id | id in before.markers && id != plan.cutoverId :: t.markers[id] == before.markers[id])
  }

  /** An index carries a plan if and only if it lists it. */
  lemma CarriedIsListed(t: IndexTree, plan: Plan, resultRevision: nat)
    ensures Carries(t, plan, resultRevision) <==> Lists(t, plan, resultRevision)
  {
    if Lists(t, plan, resultRevision) {
      assert t.primary == Finals(plan);
      assert t.audit == map id | id in plan.classifications :: Row(plan.classifications[id], resultRevision);
    }
  }

  ghost predicate IsListed(versions: seq<IndexTree>, head: nat, plan: Plan, resultRevision: nat) {
    head < |versions| && Lists(versions[head], plan, resultRevision)
  }

  lemma IndexedLists(base: IndexTree, plan: Plan, resultRevision: nat)
    ensures Lists(Indexed(base, plan, resultRevision), plan, resultRevision)
    ensures Replaces(Indexed(base, plan, resultRevision), base, plan)
  {
  }

  lemma PublishedPublishes(base: ResultTree, plan: Plan, files: map<string, string>)
    ensures Publishes(Published(base, plan, files), base, plan, files)
  {
  }

  /** What a finished cutover has in the two repositories. */
  lemma FinishedIsListed(plan: Plan, migrate: Migration, r: Repositories)
    requires Finished(plan, migrate, r)
    ensures Publishes(r.results[plan.expectedResultHead + 1], r.results[plan.expectedResultHead], plan, FilesOf(plan, migrate, r).value)
    ensures Lists(r.index[plan.expectedIndexHead + 1], plan, plan.expectedResultHead + 1)
    ensures Replaces(r.index[plan.expectedIndexHead + 1], r.index[plan.expectedIndexHead], plan)
  {
    PublishedPublishes(r.results[plan.expectedResultHead], plan, FilesOf(plan, migrate, r).value);
    IndexedLists(r.index[plan.expectedIndexHead], plan, plan.expectedResultHead + 1);
  }

  /** A result revision that a committed index may name. */
  predicate Holds(t: ResultTree, plan: Plan, files: map<string, string>) {
    && Lookup(t.markers, plan.cutoverId) == Some(plan)
    && forall path | path in files :: Lookup(t.files, path) == Some(files[path])
  }

  /** `_legacy_catalog`, the classification check and `_migrate_publication`: the files to
      publish, computed from the two expected heads alone, or None for any error. */
  type Migration = (ResultTree, IndexTree, Plan) -> Option<map<string, string>>

  /** The versions of the two repositories. */
  datatype Repositories = Repositories(results: seq<ResultTree>, index: seq<IndexTree>)

  /** The plan was drawn up against revisions that exist. */
  predicate DrawnUp(plan: Plan, r: Repositories) {
    plan.expectedResultHead < |r.results| && plan.expectedIndexHead < |r.index|
  }

  function FilesOf(plan: Plan, migrate: Migration, r: Repositories): Option<map<string, string>>
    requires DrawnUp(plan, r)
  {
    migrate(r.results[plan.expectedResultHead], r.index[plan.expectedIndexHead], plan)
  }

  /** Nothing was committed after the expected result head, or nothing but the plan's
      commit; and likewise for the index. */
  predicate ResultsPending(plan: Plan, r: Repositories) {
    |r.results| == plan.expectedResultHead + 1
  }

  predicate ResultsDone(plan: Plan, migrate: Migration, r: Repositories) {
    && DrawnUp(plan, r) && FilesOf(plan, migrate, r).Some?
    && |r.results| == plan.expectedResultHead + 2
    && r.results[plan.expectedResultHead + 1] ==
       Published(r.results[plan.expectedResultHead], plan, FilesOf(plan, migrate, r).value)
  }

  predicate IndexPending(plan: Plan, r: Repositories) {
    |r.index| == plan.expectedIndexHead + 1
  }

  predicate IndexDone(plan: Plan, r: Repositories) {
    && |r.index| == plan.expectedIndexHead + 2
    && r.index[plan.expectedIndexHead + 1] ==
       Indexed(r.index[plan.expectedIndexHead], plan, plan.expectedResultHead + 1)
  }

  /** The states that appliers of this plan leave behind, crashed or not. */
  predicate Resumable(plan: Plan, migrate: Migration, r: Repositories) {
    && DrawnUp(plan, r) && FilesOf(plan, migrate, r).Some?
    && ((ResultsPending(plan, r) && IndexPending(plan, r))
        || (ResultsDone(plan, migrate, r) && (IndexPending(plan, r) || IndexDone(plan, r))))
  }

  predicate Finished(plan: Plan, migrate: Migration, r: Repositories) {
    ResultsDone(plan, migrate, r) && IndexDone(plan, r)
  }

  /** A plan that can be migrated and has not been touched yet. */
  lemma FreshIsResumable(plan: Plan, migrate: Migration, r: Repositories)
    requires |r.results| == plan.expectedResultHead + 1 && |r.index| == plan.expectedIndexHead + 1
    requires FilesOf(plan, migrate, r).Some?
    ensures Resumable(plan, migrate, r) && !Finished(plan, migrate, r)
  {
  }

  /** What `_completed_cutover` accepts. */
  predicate IsCompleted(plan: Plan, r: Repositories, indexRevision: nat, revision: nat) {
    && indexRevision < |r.index| && revision < |r.results|
    && Carries(r.index[indexRevision], plan, revision)
    && Lookup(r.results[revision].markers, plan.cutoverId) == Some(plan)
  }

  class HubCatalogCutover {
    const results: Repository<ResultTree>
    const index: Repository<IndexTree>
    const migrate: Migration

    ghost predicate Valid()
      reads results, index
    {
      && results.Valid() && index.Valid()
      && (forall a, b :: results.step(a, b)) && (forall a, b :: index.step(a, b))
    }

    constructor (results: Repository<ResultTree>, index: Repository<IndexTree>,
                 migrate: Migration)
      requires results.Valid() && index.Valid()
      requires (forall a, b :: results.step(a, b)) && (forall a, b :: index.step(a, b))
      ensures Valid() && this.results == results && this.index == index && this.migrate == migrate
    {
      this.results, this.index, this.migrate := results, index, migrate;
    }

    ghost function Now(): Repositories
      reads results, index
    {
      Repositories(results.versions, index.versions)
    }

    ghost predicate Drawn(plan: Plan)
      reads results, index
    {
      DrawnUp(plan, Now())
    }

    ghost function Files(plan: Plan): Option<map<string, string>>
      requires Drawn(plan)
      reads results, index
    {
      FilesOf(plan, migrate, Now())
    }

    /** `_apply_locked`.  Whatever anyone else commits: at most the one commit on each
        expected head, and an index commit only of a revision that holds the plan's marker
        and every publication file.  With no other writers every outcome, a lost request
        or response included, leaves a state from which a later call finishes the cutover
        with the same content; a finished cutover is reported and not committed again. */
    method ApplyLocked(plan: Plan) returns (answer: Answer)
      requires Valid() && Drawn(plan) && plan.classifications != map[]
      modifies results, index
      ensures Valid() && Drawn(plan) && old(results.versions) <= results.versions && old(index.versions) <= index.versions
      ensures results.own == old(results.own) || results.own == old(results.own) + [plan.expectedResultHead + 1]
      ensures index.own == old(index.own) || index.own == old(index.own) + [plan.expectedIndexHead + 1]
      ensures results.own != old(results.own) ==> ResultsCommitted(plan)
      ensures index.own != old(index.own) ==> IndexCommitted(plan) && IndexIsBacked(plan)
      ensures answer.Completed? ==>
                && answer.resultRevision < |results.versions| && answer.indexRevision < |index.versions|
                && Lookup(results.versions[answer.resultRevision].markers, plan.cutoverId) == Some(plan)
                && Carries(index.versions[answer.indexRevision], plan, answer.resultRevision)
      ensures answer.Completed? ==> Lists(index.versions[answer.indexRevision], plan, answer.resultRevision)
      ensures !results.others && !index.others && old(Resumable(plan, migrate, Now())) ==> Resumable(plan, migrate, Now())
      ensures !results.others && !index.others && old(Resumable(plan, migrate, Now())) && !results.faults && !index.faults ==>
                answer == Completed(plan.expectedResultHead + 1, plan.expectedIndexHead + 1) && Finished(plan, migrate, Now())
      ensures !results.others && !index.others && old(Finished(plan, migrate, Now())) ==>
                answer.Completed? && results.own == old(results.own) && index.own == old(index.own)
    {
      var indexHead := index.Head();
      if indexHead != plan.expectedIndexHead {
        answer := CompletedCutover(plan, indexHead);
        return;
      }
      answer := ApplyToExpectedIndex(plan);
      if index.own != old(index.own) { BackedIsCommitted(plan); }
    }

    lemma BackedIsCommitted(plan: Plan)
      requires IndexIsBacked(plan)
      ensures IndexCommitted(plan)
    {
      var revision :| IsBacked(plan, revision);
      IndexedLists(index.versions[plan.expectedIndexHead], plan, revision);
      assert IsListed(index.versions, plan.expectedIndexHead + 1, plan, revision);
    }

    /** The index after the expected head is of this revision, which has the plan's marker and
        every publication file. */
    ghost predicate IsBacked(plan: Plan, revision: nat)
      reads results, index
    {
      && Drawn(plan) && Files(plan).Some? && revision < |results.versions|
      && Holds(results.versions[revision], plan, Files(plan).value)
      && plan.expectedIndexHead + 1 < |index.versions|
      && index.versions[plan.expectedIndexHead + 1] == Indexed(index.versions[plan.expectedIndexHead], plan, revision)
    }

    ghost predicate IndexIsBacked(plan: Plan)
      reads results, index
    {
      exists revision :: IsBacked(plan, revision)
    }

    /** The commit that follows the expected head is the plan's. */
    ghost predicate ResultsCommitted(plan: Plan)
      reads results, index
    {
      && Drawn(plan) && Files(plan).Some? && plan.expectedResultHead + 1 < |results.versions|
      && Publishes(results.versions[plan.expectedResultHead + 1], results.versions[plan.expectedResultHead], plan, Files(plan).value)
    }

    ghost predicate IndexCommitted(plan: Plan)
      reads index
    {
      var head := plan.expectedIndexHead + 1;
      && head < |index.versions|
      && Replaces(index.versions[head], index.versions[plan.expectedIndexHead], plan)
      && exists revision: nat :: IsListed(index.versions, head, plan, revision)
    }

    /** The rest of `_apply_locked`, once the index was seen at its expected head. */
    method ApplyToExpectedIndex(plan: Plan) returns (answer: Answer)
      requires Valid() && Drawn(plan) && plan.classifications != map[]
      modifies results, index
      ensures Valid() && Drawn(plan) && old(results.versions) <= results.versions && old(index.versions) <= index.versions
      ensures results.own == old(results.own) || results.own == old(results.own) + [plan.expectedResultHead + 1]
      ensures index.own == old(index.own) || index.own == old(index.own) + [plan.expectedIndexHead + 1]
      ensures results.own != old(results.own) ==> ResultsCommitted(plan)
      ensures index.own != old(index.own) ==> IndexIsBacked(plan)
      ensures answer.Completed? ==>
                && answer.resultRevision < |results.versions| && answer.indexRevision < |index.versions|
                && Lookup(results.versions[answer.resultRevision].markers, plan.cutoverId) == Some(plan)
                && Carries(index.versions[answer.indexRevision], plan, answer.resultRevision)
      ensures answer.Completed? ==> Lists(index.versions[answer.indexRevision], plan, answer.resultRevision)
      ensures !results.others && !index.others && old(Resumable(plan, migrate, Now()) && IndexPending(plan, Now())) ==>
                && Resumable(plan, migrate, Now())
                && (!results.faults && !index.faults ==>
                      answer == Completed(plan.expectedResultHead + 1, plan.expectedIndexHead + 1) && Finished(plan, migrate, Now()))
    {
      var resultHead := results.Head();
      var result := results.versions[resultHead];
      if resultHead != plan.expectedResultHead && Lookup(result.markers, plan.cutoverId) != Some(plan) { return Moved; }
      var publications := migrate(results.versions[plan.expectedResultHead], index.versions[plan.expectedIndexHead], plan);
      if publications.None? { return InvalidPlan; }
      answer := PublishAndIndex(plan, resultHead, publications.value);
      if answer.Completed? { CarriedIsListed(index.versions[answer.indexRevision], plan, answer.resultRevision); }
    }

    method PublishAndIndex(plan: Plan, resultHead: nat, files: map<string, string>) returns (answer: Answer)
      requires Valid() && Drawn(plan) && Files(plan) == Some(files) && resultHead < |results.versions|
      requires resultHead != plan.expectedResultHead ==>
                 Lookup(results.versions[resultHead].markers, plan.cutoverId) == Some(plan)
      requires !results.others ==> |results.versions| == resultHead + 1
      modifies results, index
      ensures Valid() && Drawn(plan) && old(results.versions) <= results.versions && old(index.versions) <= index.versions
      ensures results.own == old(results.own) || results.own == old(results.own) + [plan.expectedResultHead + 1]
      ensures index.own == old(index.own) || index.own == old(index.own) + [plan.expectedIndexHead + 1]
      ensures results.own != old(results.own) ==> ResultsCommitted(plan)
      ensures index.own != old(index.own) ==> IndexIsBacked(plan)
      ensures answer.Completed? ==>
                && answer.resultRevision < |results.versions| && answer.indexRevision < |index.versions|
                && Lookup(results.versions[answer.resultRevision].markers, plan.cutoverId) == Some(plan)
                && Carries(index.versions[answer.indexRevision], plan, answer.resultRevision)
      ensures !results.others && !index.others && old(Resumable(plan, migrate, Now()) && IndexPending(plan, Now())) ==>
                && Resumable(plan, migrate, Now())
                && (!results.faults && !index.faults ==>
                      answer == Completed(plan.expectedResultHead + 1, plan.expectedIndexHead + 1) && Finished(plan, migrate, Now()))
    {
      var published := PublishResults(plan, resultHead, files);
      if published.Err? { return published.error; }
      answer := IndexResults(plan, published.value);
      assert index.own != old(index.own) ==> IsBacked(plan, published.value);
    }

    /** `_require_head` and `_commit_index`. */
    method IndexResults(plan: Plan, revision: nat) returns (answer: Answer)
      requires Valid() && plan.expectedIndexHead < |index.versions|
      modifies index
      ensures Valid() && old(index.versions) <= index.versions
      ensures index.own == old(index.own) || index.own == old(index.own) + [plan.expectedIndexHead + 1]
      ensures index.own != old(index.own) || answer.Completed? ==>
                && plan.expectedIndexHead + 1 < |index.versions|
                && index.versions[plan.expectedIndexHead + 1] ==
                   Indexed(index.versions[plan.expectedIndexHead], plan, revision)
      ensures answer.Completed? ==> answer == Completed(revision, plan.expectedIndexHead + 1)
      ensures !index.others && |old(index.versions)| == plan.expectedIndexHead + 1 ==>
                && (index.versions == old(index.versions) ||
                    index.versions == old(index.versions) + [Indexed(old(index.versions)[plan.expectedIndexHead], plan, revision)])
                && (!index.faults ==> answer.Completed?)
    {
      var now := index.Head();
      if now != plan.expectedIndexHead { return Moved; }
      var outcome := index.CreateCommit(plan.expectedIndexHead, Indexed(index.versions[now], plan, revision));
      if outcome != Committed { return Failure; }
      answer := Completed(revision, plan.expectedIndexHead + 1);
    }

    /** `_commit_results`, or `_verify_result_files` when the marker was found. */
    method PublishResults(plan: Plan, resultHead: nat, files: map<string, string>) returns (r: Result<nat, Answer>)
      requires Valid() && resultHead < |results.versions| && plan.expectedResultHead < |results.versions|
      requires resultHead != plan.expectedResultHead ==>
                 Lookup(results.versions[resultHead].markers, plan.cutoverId) == Some(plan)
      modifies results
      ensures Valid() && old(results.versions) <= results.versions
      ensures r.Ok? ==> r.value < |results.versions| && Holds(results.versions[r.value], plan, files)
      ensures r.Err? ==> !r.error.Completed?
      ensures results.own != old(results.own) ==>
                && plan.expectedResultHead + 1 < |results.versions|
                && Publishes(results.versions[plan.expectedResultHead + 1], results.versions[plan.expectedResultHead], plan, files)
      ensures results.own == old(results.own) || results.own == old(results.own) + [plan.expectedResultHead + 1]
      ensures resultHead != plan.expectedResultHead ==>
                && results.own == old(results.own) && (!results.others ==> results.versions == old(results.versions))
                && (Holds(results.versions[resultHead], plan, files) ==> r == Ok(resultHead))
      ensures resultHead == plan.expectedResultHead && !results.others && |old(results.versions)| == resultHead + 1 ==>
                && (results.versions == old(results.versions) ||
                    results.versions == old(results.versions) + [Published(old(results.versions)[resultHead], plan, files)])
                && (r.Ok? || !results.faults ==>
                      r == Ok(resultHead + 1) &&
                      results.versions == old(results.versions) + [Published(old(results.versions)[resultHead], plan, files)])
    {
      var result := results.versions[resultHead];
      if resultHead == plan.expectedResultHead {
        PublishedPublishes(result, plan, files);
        var committed := results.CreateCommit(resultHead, Published(result, plan, files));
        return if committed == Committed then Ok(resultHead + 1) else Err(Failure);
      }
      if exists path :: path in files && Lookup(result.files, path) != Some(files[path]) {
        return Err(FilesConflict);
      }
      r := Ok(resultHead);
    }

    /** `_completed_cutover`: accepts exactly the indexes that list this plan, at one result
        revision that has its marker. */
    method CompletedCutover(plan: Plan, indexRevision: nat) returns (answer: Answer)
      requires Valid() && indexRevision < |index.versions| && plan.classifications != map[]
      ensures answer.Completed? ==> answer.indexRevision == indexRevision
      ensures forall revision: nat {:trigger Completed(revision, indexRevision)} ::
                answer == Completed(revision, indexRevision) <==>
                && revision < |results.versions| && Lists(index.versions[indexRevision], plan, revision)
                && Lookup(results.versions[revision].markers, plan.cutoverId) == Some(plan)
    {
      answer := CheckCompleted(plan, indexRevision);
      forall revision: nat
        ensures Carries(index.versions[indexRevision], plan, revision) <==> Lists(index.versions[indexRevision], plan, revision)
      {
        CarriedIsListed(index.versions[indexRevision], plan, revision);
      }
    }

    method CheckCompleted(plan: Plan, indexRevision: nat) returns (answer: Answer)
      requires Valid() && indexRevision < |index.versions| && plan.classifications != map[]
      ensures answer.Completed? ==> IsCompleted(plan, Now(), indexRevision, answer.resultRevision) && answer.indexRevision == indexRevision
      ensures forall revision: nat | IsCompleted(plan, Now(), indexRevision, revision) :: answer == Completed(revision, indexRevision)
    {
      var tree := index.versions[indexRevision];
      forall revision: nat | IsCompleted(plan, Now(), indexRevision, revision)
        ensures (set id | id in tree.audit :: tree.audit[id].resultRevision) == {revision}
      {
        OneRevision(tree, plan, revision);
      }
      if Lookup(tree.markers, plan.cutoverId) != Some(plan) { return Moved; }
      if tree.audit.Keys != plan.classifications.Keys { return CatalogConflict; }
      if exists id :: id in tree.audit && tree.audit[id].classification != plan.classifications[id] { return CatalogConflict; }
      if tree.primary != Finals(plan) { return CatalogConflict; }
      var revisions := set id | id in tree.audit :: tree.audit[id].resultRevision;
      if |revisions| != 1 { return CatalogConflict; }
      var revision :| revision in revisions;
      OnlyElement(revisions, revision);
      forall id | id in tree.audit ensures tree.audit[id].resultRevision == revision {
        assert tree.audit[id].resultRevision in revisions;
      }
      if revision >= |results.versions| || Lookup(results.versions[revision].markers, plan.cutoverId) != Some(plan) {
        return CatalogConflict;
      }
      answer := Completed(revision, indexRevision);
    }
  }

  lemma OneRevision(tree: IndexTree, plan: Plan, revision: nat)
    requires Carries(tree, plan, revision) && plan.classifications != map[]
    ensures (set id | id in tree.audit :: tree.audit[id].resultRevision) == {revision}
  {
    var id :| id in plan.classifications;
    assert id in tree.audit && tree.audit[id].resultRevision == revision;
  }

  lemma OnlyElement<T>(s: set<T>, x: T)
    requires |s| == 1 && x in s
    ensures s == {x}
  {
    assert |s - {x}| == 0;
  }
}
