/**
  The main loop of the cleaner (main.go): list the repositories and the tags in
  use, then, repository by repository, list its images, classify each one as
  kept or stale, purge the stale ones (or only count them in a dry run), and
  flush the buffered report lines.

  Logging is modelled as a sequence of abstract lines: `logGroup` is the global
  buffer of main.go, `output` is what the logger has written so far. Lines that
  main.go logs directly (the errors) go straight to `output`.
*/
module Cleaner {
  import opened Common
  import Ecr
  import Ecs

  // ---------------------------------------------------------------------------
  // Classification
  // ---------------------------------------------------------------------------

  /** An image is kept when it is tagged and its tag is one of the running images' tags. */
  predicate Kept(image: ImageId, running: seq<string>)
  {
    image.tag.Some? && image.tag.value in running
  }

  /** The stale images, in input order. */
  function Stale(images: seq<ImageId>, running: seq<string>): seq<ImageId>
    decreases |images|
  {
    if images == [] then []
    else
      var last := images[|images| - 1];
      Stale(images[..|images| - 1], running) + (if Kept(last, running) then [] else [last])
  }

  /**
    The classification loop of main.go: for each image, scan the running tags with
    a `match` flag, breaking at once on an untagged image or at the first equal tag.
  */
  method FindStale(images: seq<ImageId>, running: seq<string>) returns (stale: seq<ImageId>)
    ensures stale == Stale(images, running)
  {
    stale := [];
    for i := 0 to |images|
      invariant stale == Stale(images[..i], running)
    {
      var image := images[i];
      var matched := false;
      var j := 0;
      while j < |running|
        invariant 0 <= j <= |running|
        invariant !matched
        invariant image.tag.None? ==> j == 0
        invariant image.tag.Some? ==> forall l :: 0 <= l < j ==> running[l] != image.tag.value
      {
        if image.tag.None? {
          break;
        }
        if running[j] == image.tag.value {
          matched := true;
          break;
        }
        j := j + 1;
      }
      assert matched == Kept(image, running);
      if !matched {
        stale := stale + [image];
      }
      assert images[..i + 1][..i] == images[..i];
    }
    assert images[..|images|] == images;
  }

  /**
    Every image is examined once and lands in exactly one class: `positions` lists,
    in increasing order, the indices of the stale images, the stale sequence is the
    images at those indices, and an index is listed exactly when its image is not kept.
  */
  lemma {:induction false} StaleIsOrderedSelection(images: seq<ImageId>, running: seq<string>)
    returns (positions: seq<nat>)
    ensures |positions| == |Stale(images, running)|
    ensures forall i, j :: 0 <= i < j < |positions| ==> positions[i] < positions[j]
    ensures forall i :: 0 <= i < |positions| ==>
      positions[i] < |images| && images[positions[i]] == Stale(images, running)[i]
    ensures forall k :: 0 <= k < |images| ==> (k in positions <==> !Kept(images[k], running))
    decreases |images|
  {
    if images == [] {
      return [];
    }
    var n := |images| - 1;
    var prefix, last := images[..n], images[n];
    var before := StaleIsOrderedSelection(prefix, running);
    assert Stale(images, running) == Stale(prefix, running) + (if Kept(last, running) then [] else [last]);
    if Kept(last, running) {
      positions := before;
    } else {
      positions := before + [n];
    }
    forall k | 0 <= k < |images|
      ensures k in positions <==> !Kept(images[k], running)
    {
      if k < n {
        assert images[k] == prefix[k];
        assert k in positions <==> k in before;
      }
    }
  }

  /** An untagged image is stale whatever the running tags are. */
  lemma UntaggedIsStale(images: seq<ImageId>, running: seq<string>, k: nat)
    requires k < |images| && images[k].tag.None?
    ensures images[k] in Stale(images, running)
  {
    var positions := StaleIsOrderedSelection(images, running);
    var i :| 0 <= i < |positions| && positions[i] == k;
  }

  /** A tagged image is stale exactly when its tag is not among the running tags. */
  lemma {:induction false} TaggedStaleIff(images: seq<ImageId>, running: seq<string>, image: ImageId)
    requires image in images && image.tag.Some?
    ensures image in Stale(images, running) <==> image.tag.value !in running
    decreases |images|
  {
    var n := |images| - 1;
    if image in images[..n] {
      TaggedStaleIff(images[..n], running, image);
    } else {
      assert image == images[n] by {
        assert images == images[..n] + [images[n]];
      }
      var positions := StaleIsOrderedSelection(images[..n], running);
      assert image !in Stale(images[..n], running);
    }
  }

  /** With no running tags every image is stale. */
  lemma {:induction false} NothingRunningAllStale(images: seq<ImageId>)
    ensures Stale(images, []) == images
    decreases |images|
  {
    if images != [] {
      NothingRunningAllStale(images[..|images| - 1]);
      assert images == images[..|images| - 1] + [images[|images| - 1]];
    }
  }

  // ---------------------------------------------------------------------------
  // The run, as specification
  // ---------------------------------------------------------------------------

  /** One abstract log line; the comments give the Go format it stands for. */
  datatype Line =
    | ListRepositoriesFailed(cause: AwsError)          // "Error listing ECR repositories"
    | FindActiveImagesFailed(cause: AwsError)          // "Error finding `running` tasks ..."
    | DryRunSetting(dry: bool)                         // "Dry Run: %v"
    | RegionSetting(region: string)                    // "AWS Region: %v"
    | RepositoriesFound(count: nat)                    // "Repositories Found: %v"
    | ActiveImagesFound(count: nat)                    // "Active Images Found: %v"
    | ListImagesFailed(repository: string, cause: AwsError)
    | RepositoryHeader(repository: string)             // "Repository: %v"
    | WouldPurge(count: nat)                           // "[DRY RUN] `%v` images would be purged"
    | PurgeFailed(repository: string, error: Ecr.PurgeError)
    | Purged(count: nat, repository: string)           // "[PURGED] `%v` images in repository `%v`"
    | Rule                                             // the dashed line closing a block

  /** One BatchDeleteImage request issued to the registry. */
  datatype Deletion = Deletion(repository: string, images: seq<ImageId>)

  /** What happens to one repository: its listing error, its images, the stale ones, the purge. */
  datatype Step = Step(listError: Option<AwsError>, images: seq<ImageId>, stale: seq<ImageId>, purge: Ecr.Purge)

  function CleanStep(registry: Ecr.Registry, repository: string, running: seq<string>, dry: bool): Step
  {
    var listed := Ecr.Listed(registry.listImages(repository));
    var images := if listed.Ok? then listed.value else [];
    var stale := Stale(images, running);
    Step(if listed.Err? then Some(listed.error) else None, images, stale,
         PurgeStep(registry, repository, stale, dry))
  }

  /** No purge in a dry run; otherwise PurgeImages on the whole stale sequence. */
  function PurgeStep(registry: Ecr.Registry, repository: string, stale: seq<ImageId>, dry: bool): Ecr.Purge
  {
    if dry then Ecr.Purge([], None)
    else Ecr.PurgeOutcome(repository, stale, registry.batchDeleteImage(repository))
  }

  /**
    The lines one repository produces, in output order: the listing error and the
    purge error are logged at once, the buffered block is flushed at the end.
  */
  function StepLines(repository: string, dry: bool, step: Step): seq<Line>
  {
    (if step.listError.Some? then [ListImagesFailed(repository, step.listError.value)] else [])
    + (if step.purge.err.Some? then [PurgeFailed(repository, step.purge.err.value)] else [])
    + [RepositoryHeader(repository),
       if dry then WouldPurge(|step.stale|) else Purged(|step.stale|, repository),
       Rule]
  }

  /** The BatchDeleteImage requests a purge issued. */
  function Requests(repository: string, purge: Ecr.Purge): seq<Deletion>
  {
    seq(|purge.sent|, i requires 0 <= i < |purge.sent| => Deletion(repository, purge.sent[i]))
  }

  function StepDeletions(repository: string, step: Step): seq<Deletion>
  {
    Requests(repository, step.purge)
  }

  /** The concatenation of f(x) over xs, in order. */
  function ConcatMap<T, U>(xs: seq<T>, f: T -> seq<U>): seq<U>
    decreases |xs|
  {
    if xs == [] then [] else ConcatMap(xs[..|xs| - 1], f) + f(xs[|xs| - 1])
  }

  /** The lines of the loop over the named repositories: one block after another. */
  function RepositoriesLines(registry: Ecr.Registry, names: seq<string>, running: seq<string>, dry: bool): seq<Line>
  {
    ConcatMap(names, (name: string) => StepLines(name, dry, CleanStep(registry, name, running, dry)))
  }

  function RepositoriesDeletions(registry: Ecr.Registry, names: seq<string>, running: seq<string>, dry: bool): seq<Deletion>
  {
    ConcatMap(names, (name: string) => StepDeletions(name, CleanStep(registry, name, running, dry)))
  }

  /** The tags in use as main.go sees them: nil (empty) when FindActiveImages failed. */
  function Running(scan: Ecs.Scan): seq<string>
  {
    if scan.Found? then scan.tags else []
  }

  /** Everything the run logs, in order; after a panic in FindActiveImages nothing more. */
  function RunLines(dry: bool, region: string, registry: Ecr.Registry, ecs: Ecs.Api): seq<Line>
  {
    var described := registry.describeRepositories;
    var names := Ecr.RepositoryNames(described);
    var scan := Ecs.ActiveImages(ecs);
    var first := if described.Err? then [ListRepositoriesFailed(described.error)] else [];
    if scan.Panicked? then first
    else
      first
      + (if scan.Failed? then [FindActiveImagesFailed(scan.error)] else [])
      + [DryRunSetting(dry), RegionSetting(region), RepositoriesFound(|names|),
         ActiveImagesFound(|Running(scan)|), Rule]
      + RepositoriesLines(registry, names, Running(scan), dry)
  }

  /** Every BatchDeleteImage request of the run, in order. */
  function RunDeletions(dry: bool, registry: Ecr.Registry, ecs: Ecs.Api): seq<Deletion>
  {
    var scan := Ecs.ActiveImages(ecs);
    if scan.Panicked? then []
    else RepositoriesDeletions(registry, Ecr.RepositoryNames(registry.describeRepositories), Running(scan), dry)
  }

  // ---------------------------------------------------------------------------
  // The run, as the program performs it
  // ---------------------------------------------------------------------------

  class Cleaner {
    /** The global log buffer of main.go. */
    var logGroup: seq<Line>
    /** Everything logged so far, in order. */
    var output: seq<Line>
    /** Every BatchDeleteImage request issued so far, in order. */
    ghost var deletions: seq<Deletion>

    constructor()
      ensures logGroup == [] && output == [] && deletions == []
    {
      logGroup, output, deletions := [], [], [];
    }

    /** outputLog: writes every buffered line in order, then the rule, and empties the buffer. */
    method OutputLog()
      modifies this
      ensures output == old(output) + old(logGroup) + [Rule]
      ensures logGroup == []
      ensures deletions == old(deletions)
    {
      var buffered := logGroup;
      for i := 0 to |buffered|
        invariant output == old(output) + buffered[..i]
        invariant logGroup == buffered && deletions == old(deletions)
      {
        output := output + [buffered[i]];
      }
      assert buffered[..|buffered|] == buffered;
      output := output + [Rule];
      logGroup := [];
    }

    /**
      The dry-run / purge branch of main.go: count the stale images, or purge them,
      logging a purge error at once; either way the count goes to the buffer.
    */
    method PurgeOrCount(registry: Ecr.Registry, repository: string, stale: seq<ImageId>, dry: bool)
      modifies this
      ensures logGroup == old(logGroup) + [if dry then WouldPurge(|stale|) else Purged(|stale|, repository)]
      ensures var purge := PurgeStep(registry, repository, stale, dry);
        && output == old(output) + (if purge.err.Some? then [PurgeFailed(repository, purge.err.value)] else [])
        && deletions == old(deletions) + Requests(repository, purge)
    {
      if dry {
        logGroup := logGroup + [WouldPurge(|stale|)];
      } else {
        var err, sent := Ecr.PurgeImages(repository, stale, registry.batchDeleteImage(repository));
        deletions := deletions + Requests(repository, Ecr.Purge(sent, err));
        if err.Some? {
          output := output + [PurgeFailed(repository, err.value)];
        }
        logGroup := logGroup + [Purged(|stale|, repository)];
      }
    }

    /** The body of the loop over repositories in main.go. */
    method CleanRepository(registry: Ecr.Registry, repository: string, running: seq<string>, dry: bool)
      requires logGroup == []
      modifies this
      ensures output == old(output) + StepLines(repository, dry, CleanStep(registry, repository, running, dry))
      ensures deletions == old(deletions) + StepDeletions(repository, CleanStep(registry, repository, running, dry))
      ensures logGroup == []
    {
      ghost var step := CleanStep(registry, repository, running, dry);
      var images, err, tokens := Ecr.ListImages(repository, registry.listImages(repository));
      assert step.listError == err && step.images == images;
      if err.Some? {
        output := output + [ListImagesFailed(repository, err.value)];
      }
      logGroup := logGroup + [RepositoryHeader(repository)];
      var stale := FindStale(images, running);
      assert step.stale == stale;
      PurgeOrCount(registry, repository, stale, dry);
      ghost var listed := if step.listError.Some? then [ListImagesFailed(repository, step.listError.value)] else [];
      ghost var purged := if step.purge.err.Some? then [PurgeFailed(repository, step.purge.err.value)] else [];
      ghost var closing := [RepositoryHeader(repository), if dry then WouldPurge(|stale|) else Purged(|stale|, repository), Rule];
      assert StepLines(repository, dry, step) == listed + purged + closing;
      ghost var before, buffered := output, logGroup;
      assert before == old(output) + listed + purged;
      assert buffered + [Rule] == closing;
      OutputLog();
      AppendAssociates(before, buffered, [Rule]);
      AppendAssociates(old(output), listed, purged);
      AppendAssociates(old(output), listed + purged, closing);
    }

    /** The loop of main.go over the repositories, one CleanRepository each. */
    method CleanRepositories(registry: Ecr.Registry, repositories: seq<string>, running: seq<string>, dry: bool)
      requires logGroup == []
      modifies this
      ensures output == old(output) + RepositoriesLines(registry, repositories, running, dry)
      ensures deletions == old(deletions) + RepositoriesDeletions(registry, repositories, running, dry)
      ensures logGroup == []
    {
      for i := 0 to |repositories|
        invariant logGroup == []
        invariant output == old(output) + RepositoriesLines(registry, repositories[..i], running, dry)
        invariant deletions == old(deletions) + RepositoriesDeletions(registry, repositories[..i], running, dry)
      {
        ghost var lines, issued := output, deletions;
        CleanRepository(registry, repositories[i], running, dry);
        RepositoriesStep(registry, repositories, running, dry, i, old(output), lines, output, old(deletions), issued, deletions);
      }
      assert repositories[..|repositories|] == repositories;
    }

    /**
      main: list the repositories and the tags in use, report the settings, then
      clean each repository in turn. A failure in one repository is logged and the
      next one is still cleaned; `crashed` reports the runtime panic of FindActiveImages.
    */
    method Run(dry: bool, region: string, registry: Ecr.Registry, ecs: Ecs.Api) returns (crashed: bool)
      requires logGroup == []
      modifies this
      ensures crashed <==> Ecs.ActiveImages(ecs).Panicked?
      ensures output == old(output) + RunLines(dry, region, registry, ecs)
      ensures deletions == old(deletions) + RunDeletions(dry, registry, ecs)
      ensures logGroup == []
    {
      var described := registry.describeRepositories;
      ghost var first := if described.Err? then [ListRepositoriesFailed(described.error)] else [];
      var repositories, err := Ecr.ListRepositories(described);
      assert repositories == Ecr.RepositoryNames(described);
      if err.Some? {
        output := output + [ListRepositoriesFailed(err.value)];
      }
      assert output == old(output) + first;
      var scan := Ecs.FindActiveImages(ecs);
      if scan.Panicked? {
        return true;
      }
      ghost var second := if scan.Failed? then [FindActiveImagesFailed(scan.error)] else [];
      var runningImages := if scan.Found? then scan.tags else [];
      if scan.Failed? {
        output := output + [FindActiveImagesFailed(scan.error)];
      }
      logGroup := logGroup + [DryRunSetting(dry), RegionSetting(region),
                              RepositoriesFound(|repositories|), ActiveImagesFound(|runningImages|)];
      ghost var header := [DryRunSetting(dry), RegionSetting(region), RepositoriesFound(|repositories|),
                           ActiveImagesFound(|runningImages|), Rule];
      ghost var before, buffered := output, logGroup;
      assert before == old(output) + first + second;
      assert buffered + [Rule] == header;
      OutputLog();
      AppendAssociates(before, buffered, [Rule]);
      CleanRepositories(registry, repositories, runningImages, dry);
      ghost var rest := RepositoriesLines(registry, repositories, runningImages, dry);
      AppendAssociates(old(output), first, second);
      AppendAssociates(old(output), first + second, header);
      AppendAssociates(old(output), first + second + header, rest);
      crashed := false;
    }
  }

  // ---------------------------------------------------------------------------
  // Properties of the run
  // ---------------------------------------------------------------------------

  /** A dry run never asks the registry to delete anything. */
  lemma {:induction false} DryRunDeletesNothing(registry: Ecr.Registry, names: seq<string>, running: seq<string>)
    ensures RepositoriesDeletions(registry, names, running, true) == []
    decreases |names|
  {
    if names != [] {
      DryRunDeletesNothing(registry, names[..|names| - 1], running);
    }
  }

  /**
    Per repository: a dry run reports |stale| as would-be-purged and sends nothing;
    a live run hands the whole stale sequence to PurgeImages and reports |stale| as
    purged even when the purge failed.
  */
  lemma StepReportsStaleCount(registry: Ecr.Registry, repository: string, running: seq<string>, dry: bool)
    ensures var step := CleanStep(registry, repository, running, dry);
      var lines := StepLines(repository, dry, step);
      && lines[|lines| - 3] == RepositoryHeader(repository)
      && lines[|lines| - 1] == Rule
      && (dry ==> step.purge.sent == [] && lines[|lines| - 2] == WouldPurge(|step.stale|))
      && (!dry ==> lines[|lines| - 2] == Purged(|step.stale|, repository)
                   && step.purge == Ecr.PurgeOutcome(repository, step.stale, registry.batchDeleteImage(repository)))
  {
  }

  /** A listing error leaves no images, hence nothing stale and no deletion request. */
  lemma ListingErrorPurgesNothing(registry: Ecr.Registry, repository: string, running: seq<string>, dry: bool)
    requires Ecr.Listed(registry.listImages(repository)).Err?
    ensures CleanStep(registry, repository, running, dry).stale == []
    ensures CleanStep(registry, repository, running, dry).purge == Ecr.Purge([], None)
  {
  }

  /** When FindActiveImages fails, every listed image of every repository is stale. */
  lemma ActiveFailureMakesAllStale(registry: Ecr.Registry, ecs: Ecs.Api, repository: string, dry: bool)
    requires Ecs.ActiveImages(ecs).Failed?
    ensures var step := CleanStep(registry, repository, Running(Ecs.ActiveImages(ecs)), dry);
      step.stale == step.images
  {
    var step := CleanStep(registry, repository, Running(Ecs.ActiveImages(ecs)), dry);
    NothingRunningAllStale(step.images);
  }

  lemma {:induction false} ConcatMapAppend<T, U>(a: seq<T>, b: seq<T>, f: T -> seq<U>)
    ensures ConcatMap(a + b, f) == ConcatMap(a, f) + ConcatMap(b, f)
    decreases |b|
  {
    if b == [] {
      assert a + b == a;
    } else {
      var b' := b[..|b| - 1];
      assert (a + b)[..|a + b| - 1] == a + b';
      ConcatMapAppend(a, b', f);
    }
  }

  /** One more repository adds its block of lines and its requests at the end. */
  lemma RepositoriesStep(registry: Ecr.Registry, names: seq<string>, running: seq<string>, dry: bool, i: nat,
                         start: seq<Line>, before: seq<Line>, after: seq<Line>,
                         issuedStart: seq<Deletion>, issuedBefore: seq<Deletion>, issuedAfter: seq<Deletion>)
    requires i < |names|
    requires before == start + RepositoriesLines(registry, names[..i], running, dry)
    requires after == before + StepLines(names[i], dry, CleanStep(registry, names[i], running, dry))
    requires issuedBefore == issuedStart + RepositoriesDeletions(registry, names[..i], running, dry)
    requires issuedAfter == issuedBefore + StepDeletions(names[i], CleanStep(registry, names[i], running, dry))
    ensures after == start + RepositoriesLines(registry, names[..i + 1], running, dry)
    ensures issuedAfter == issuedStart + RepositoriesDeletions(registry, names[..i + 1], running, dry)
  {
    RepositoriesSnoc(registry, names, running, dry, i);
    var step := CleanStep(registry, names[i], running, dry);
    AppendAssociates(start, RepositoriesLines(registry, names[..i], running, dry), StepLines(names[i], dry, step));
    AppendAssociates(issuedStart, RepositoriesDeletions(registry, names[..i], running, dry), StepDeletions(names[i], step));
  }

  /** Sequence associativity, stated once so the log proofs above stay within the solver's budget. */
  lemma AppendAssociates<T>(a: seq<T>, b: seq<T>, c: seq<T>)
    ensures (a + b) + c == a + (b + c)
  {
  }

  /** The last repository of a prefix contributes the last block and the last requests. */
  lemma RepositoriesSnoc(registry: Ecr.Registry, names: seq<string>, running: seq<string>, dry: bool, i: nat)
    requires i < |names|
    ensures RepositoriesLines(registry, names[..i + 1], running, dry)
      == RepositoriesLines(registry, names[..i], running, dry)
       + StepLines(names[i], dry, CleanStep(registry, names[i], running, dry))
    ensures RepositoriesDeletions(registry, names[..i + 1], running, dry)
      == RepositoriesDeletions(registry, names[..i], running, dry)
       + StepDeletions(names[i], CleanStep(registry, names[i], running, dry))
  {
    assert names[..i + 1][..i] == names[..i];
  }


  /**
    Failure isolation: the lines of repository i form one complete block, computed
    from that repository's own replies, whatever happened to the others.
  */
  lemma RepositoryBlock(registry: Ecr.Registry, names: seq<string>, running: seq<string>, dry: bool, i: nat)
    requires i < |names|
    ensures RepositoriesLines(registry, names, running, dry)
      == RepositoriesLines(registry, names[..i], running, dry)
       + StepLines(names[i], dry, CleanStep(registry, names[i], running, dry))
       + RepositoriesLines(registry, names[i + 1..], running, dry)
  {
    ConcatMapAt(names, (name: string) => StepLines(name, dry, CleanStep(registry, name, running, dry)), i);
  }

  /** The image of the i-th element sits between the images of the elements around it. */
  lemma ConcatMapAt<T, U>(xs: seq<T>, f: T -> seq<U>, i: nat)
    requires i < |xs|
    ensures ConcatMap(xs, f) == ConcatMap(xs[..i], f) + f(xs[i]) + ConcatMap(xs[i + 1..], f)
  {
    var before, after := xs[..i + 1], xs[i + 1..];
    assert xs == before + after;
    ConcatMapAppend(before, after, f);
    assert before[..i] == xs[..i];
    assert ConcatMap(before, f) == ConcatMap(xs[..i], f) + f(xs[i]);
  }


  /**
    A panic while collecting the tags in use ends the run before any repository is
    touched: only the repository-listing error, if any, was written.
  */
  lemma PanicStopsRun(dry: bool, region: string, registry: Ecr.Registry, ecs: Ecs.Api)
    requires Ecs.ActiveImages(ecs).Panicked?
    ensures RunDeletions(dry, registry, ecs) == []
    ensures RunLines(dry, region, registry, ecs)
      == if registry.describeRepositories.Err? then [ListRepositoriesFailed(registry.describeRepositories.error)] else []
  {
  }

  /**
    Only the first page of DescribeRepositories is read: its NextToken changes neither
    the lines written nor the deletion requests made.
  */
  lemma OnlyFirstRepositoryPage(dry: bool, region: string, registry: Ecr.Registry, ecs: Ecs.Api,
                                repositories: seq<Ecr.Repository>, token: Option<string>)
    requires registry.describeRepositories == Ok(Ecr.RepositoryPage(repositories, token))
    ensures var firstOnly := registry.(describeRepositories := Ok(Ecr.RepositoryPage(repositories, None)));
      && RunLines(dry, region, registry, ecs) == RunLines(dry, region, firstOnly, ecs)
      && RunDeletions(dry, registry, ecs) == RunDeletions(dry, firstOnly, ecs)
  {
    var firstOnly := registry.(describeRepositories := Ok(Ecr.RepositoryPage(repositories, None)));
    var names := Ecr.RepositoryNames(registry.describeRepositories);
    assert Ecr.RepositoryNames(firstOnly.describeRepositories) == names;
    var running := Running(Ecs.ActiveImages(ecs));
    SameRepliesSameBlocks(registry, firstOnly, names, running, dry);
  }

  /** Registries that answer ListImages and BatchDeleteImage alike give the same blocks. */
  lemma {:induction false} SameRepliesSameBlocks(r1: Ecr.Registry, r2: Ecr.Registry, names: seq<string>,
                                                 running: seq<string>, dry: bool)
    requires r1.listImages == r2.listImages && r1.batchDeleteImage == r2.batchDeleteImage
    ensures RepositoriesLines(r1, names, running, dry) == RepositoriesLines(r2, names, running, dry)
    ensures RepositoriesDeletions(r1, names, running, dry) == RepositoriesDeletions(r2, names, running, dry)
    decreases |names|
  {
    if names != [] {
      var last := |names| - 1;
      SameRepliesSameBlocks(r1, r2, names[..last], running, dry);
      assert CleanStep(r1, names[last], running, dry) == CleanStep(r2, names[last], running, dry);
    }
  }

  /**
    The worked example: repository "svc" holds images tagged a, b, c and one untagged
    image, and only b is running. The stale images are a, c and the untagged one; a
    live run sends them as one batch of 3, a dry run sends nothing and reports 3.
  */
  lemma SvcExample(registry: Ecr.Registry, a: ImageId, b: ImageId, c: ImageId, u: ImageId)
    requires a.tag == Some("a") && b.tag == Some("b") && c.tag == Some("c") && u.tag == None
    requires registry.listImages("svc") == [Ok(Ecr.Page([a, b, c, u], None))]
    requires forall k: nat :: registry.batchDeleteImage("svc")(k) == None
    ensures CleanStep(registry, "svc", ["b"], false).stale == [a, c, u]
    ensures CleanStep(registry, "svc", ["b"], false).purge == Ecr.Purge([[a, c, u]], None)
    ensures StepLines("svc", false, CleanStep(registry, "svc", ["b"], false))
      == [RepositoryHeader("svc"), Purged(3, "svc"), Rule]
    ensures CleanStep(registry, "svc", ["b"], true).purge.sent == []
    ensures StepLines("svc", true, CleanStep(registry, "svc", ["b"], true))
      == [RepositoryHeader("svc"), WouldPurge(3), Rule]
  {
    SvcListing(registry.listImages("svc"), [a, b, c, u]);
    SvcStale(a, b, c, u);
    assert Ecr.Batches([a, c, u]) == [[a, c, u]];
    var live := CleanStep(registry, "svc", ["b"], false);
    assert live.stale == [a, c, u];
    assert live.purge == Ecr.Purge([[a, c, u]], None);
  }

  /** The listing of the example repository: one final page. */
  lemma SvcListing(replies: Ecr.Listing, images: seq<ImageId>)
    requires replies == [Ok(Ecr.Page(images, None))]
    ensures Ecr.Listed(replies) == Ok(images)
  {
    assert Ecr.Stops(replies[0]);
    assert Ecr.FirstStop(replies) == 0;
    assert Ecr.Gathered(replies, 0) == [];
    assert Ecr.Gathered(replies, 1) == [] + images == images;
  }

  /** Which of the example's images are stale while only "b" runs. */
  lemma SvcStale(a: ImageId, b: ImageId, c: ImageId, u: ImageId)
    requires a.tag == Some("a") && b.tag == Some("b") && c.tag == Some("c") && u.tag == None
    ensures Stale([a, b, c, u], ["b"]) == [a, c, u]
  {
    var images := [a, b, c, u];
    assert images[..3] == [a, b, c] && [a, b, c][..2] == [a, b] && [a, b][..1] == [a];
    assert Stale([a], ["b"]) == [a];
    assert Stale([a, b], ["b"]) == [a];
    assert Stale([a, b, c], ["b"]) == [a, c];
  }


}
