# ecr-cleanse in Dafny

ecr-cleanse deletes stale images from AWS Elastic Container Registry (ECR).
An image is stale when it is untagged, or when its tag is not the tag of any container
image used by a running task in Elastic Container Service (ECS). For every repository,
the tool lists its images and classifies them against the running tags. It then either
reports how many it would purge (dry run) or deletes them with `BatchDeleteImage`,
at most 100 identifiers per call. Progress goes to a log in groups, each group closed
by a rule line.

The model has four modules:

- `Common` (`common.dfy`): `Option`, `Result`, the AWS error value and `ImageId`,
  an image digest with an optional tag.
- `Ecr` (`ecr.dfy`): `services/ecr.go`. It covers:
  - `ListRepositories`;
  - `ListImages`, which follows continuation tokens;
  - `PurgeImages`, which cuts the stale images into windows of 100 plus one final tail
    call, and `BatchPurge`.
- `Ecs` (`ecs.dfy`): `services/ecs.go`. It covers `FindActiveImages`: the walk over
  clusters, running tasks and task definitions. That walk takes the image tag as
  `strings.Split(image, ":")[1]`.
- `Cleaner` (`cleaner.dfy`): `main.go`. It covers the stale-image classification and
  the per-repository loop. The class `Cleaner` has two fields:
  - `logGroup`: the package-level buffer of `main.go`;
  - `output`: the lines written so far, which `outputLog` flushes into.

  A ghost field `deletions` records every `BatchDeleteImage` request.

AWS is not called. Every AWS reply is an input value:

- `Ecr.Registry` holds three replies:
  - the `DescribeRepositories` reply;
  - for each repository, the sequence of `ListImages` page replies (`Listing`);
  - for each repository, the reply to the k-th `BatchDeleteImage` call.
- `Ecs.Api` holds one reply each for `ListClusters`, `ListTasks`, `DescribeTasks` and
  `DescribeTaskDefinition`.

Each method is proved equal to a specification function of these replies:

- `Listed`, `PurgeOutcome` and `Stale` for the single operations;
- `ActiveImages` for the ECS walk;
- `CleanStep`, `StepLines` and `RunLines` for the program as a whole.

The lemmas then state what those functions promise. `Ecs.AllDefinitions` is a second,
independent definition of the ECS walk. It only collects the container definitions
the calls reach, up to the first API error, and that error. `Ecs.Outcome` says how a
walk over them must end, and `Ecs.ActiveImagesAgree` proves the walk ends that way.

The model follows the code as written:

- **Tag.** The tag of a running image is the *second* `:`-separated segment, not the
  last one. For `host:5000/repo:v1` that is `5000/repo` (`Ecs.TagExamples`). An image
  name without `:` makes the Go code index past the end of the split and panic. The
  model has this as the `Panicked` outcome.
- **Batch count.** A purge of n > 0 images makes n/100 + 1 calls, not ⌈n/100⌉. When
  100 divides n, the last call carries an empty batch (`Ecr.BatchesPartition`,
  `Ecr.BatchesOf200`).
- **Repositories.** Only the first page of `DescribeRepositories` is read. Its token is
  never followed (`Cleaner.OnlyFirstRepositoryPage`).
- **Clusters.** Only the first page of `ListClusters` is read. The token is never sent
  again (`Ecs.OnlyFirstClusterPage`).
- **Running images.** These form a list with repetitions, in walk order, not a set.
  Matching looks only at membership.
- **Listing failure.** When listing a repository's images fails, the error is logged
  and the run continues. The repository shows zero stale images
  (`Cleaner.ListingErrorPurgesNothing`).
- **ECS failure.** When `FindActiveImages` fails, the run continues with no running
  images. Every tagged image then counts as stale (`Cleaner.ActiveFailureMakesAllStale`).

## Model

| member | source | states |
|---|---|---|
| Ecr.ListRepositories | services/ecr.go:26-37 | one `DescribeRepositories` call: on an error, the error and no names; otherwise one name per repository of that first page, in reply order |
| Ecr.StopAt | services/ecr.go:44-57 | the index it returns is the first reply, from the given start, that is an error or has no `NextToken`; `None` means no such reply |
| Ecr.ListImages | services/ecr.go:40-59 | the first call sends no token and each later call sends the previous page's `NextToken`; the loop stops at the first error or last page; it returns every gathered identifier on success, and the error with nothing on failure, as `Listed` says |
| Ecr.GatheredPrefix | services/ecr.go:53 | appending pages only extends the identifiers gathered so far |
| Ecr.GatheredIgnoresLaterReplies | services/ecr.go:44-57 | replies after the ones consumed do not change what was gathered |
| Ecr.ListedEndsAtLastPage | services/ecr.go:54-56 | once a page without `NextToken` (or an error) is reached, later replies are never requested and do not change the result |
| Ecr.ListedContainsEveryPage | services/ecr.go:53 | on success, every page's identifiers appear in the result, contiguously and in page order |
| Ecr.ChunksCount | services/ecr.go:68-75 | the windows-plus-tail split of n identifiers has n/100 + 1 pieces |
| Ecr.ChunkAt | services/ecr.go:69-75 | piece i < n/100 is `images[i*100..(i+1)*100]`; the last piece is `images[(n/100)*100..]` |
| Ecr.ConcatAppend | services/ecr.go:68-75 | concatenating batches distributes over appending batch lists |
| Ecr.ChunksConcat | services/ecr.go:68-75 | the pieces, concatenated in order, give back the input |
| Ecr.ChunksBounded | services/ecr.go:61 | no piece holds more than 100 identifiers |
| Ecr.BatchesPartition | services/ecr.go:62-80 | the batches partition the stale images in order; each has at most 100; there are none for no images and n/100 + 1 otherwise; the last one is empty when 100 divides n |
| Ecr.BatchesOf250 | services/ecr.go:68-75 | 250 identifiers go out as batches of 100, 100 and 50 |
| Ecr.BatchesOf200 | services/ecr.go:68-75 | 200 identifiers go out as batches of 100, 100 and an empty one |
| Ecr.FirstFailure | services/ecr.go:69-78 | the index returned is that of the first failing call among the first n, or n when none fails |
| Ecr.BatchPurge | services/ecr.go:83-92 | the error returned is the `BatchDeleteImage` reply to that call |
| Ecr.PurgeImages | services/ecr.go:62-80 | the batches sent and the error returned are `PurgeOutcome`: batches in order up to and including the first failure; there is no error iff every batch succeeds, and an error is the first failing call's, wrapped with the repository name |
| Ecr.PurgeStopsAtFirstFailure | services/ecr.go:64-79 | no images means no call and no error; the calls made are a prefix of the batches; every call but the last succeeded; there is no error iff all batches were sent and all succeeded; an error names the repository and carries the last call's failure |
| Ecr.PurgeSubmitsPrefix | services/ecr.go:62-80 | every batch sent has at most 100 identifiers; together they are a prefix of the stale images, and all of them on success |
| Ecs.Split | services/ecs.go:73 | `strings.Split` always yields at least one part |
| Ecs.SplitJoin | services/ecs.go:73 | joining the parts with the separator gives back the string |
| Ecs.SplitParts | services/ecs.go:73 | there is one part more than there are separators; no part contains the separator; there are parts beyond the first iff the separator occurs |
| Ecs.SplitWithoutSeparator | services/ecs.go:73 | a string without the separator splits into itself alone |
| Ecs.SplitAtFirstSeparator | services/ecs.go:73 | the first part is everything before the first separator, and the rest splits on its own |
| Ecs.TagOf | services/ecs.go:73 | there is a tag exactly when the image name contains `:`; without one the indexing `[1]` would panic |
| Ecs.TagBetweenFirstTwoColons | services/ecs.go:73 | the tag is the text between the first `:` and the next `:` or the end |
| Ecs.TagExamples | services/ecs.go:73 | `nginx:1.25` has tag `1.25`; `host:5000/repo:v1` has tag `5000/repo`; `nginx` has none |
| Ecs.ScanAllStep | services/ecs.go:42-76 | the walk over one more item is the walk so far followed by that item's step |
| Ecs.ScanAllAbort | services/ecs.go:42-76 | the first step that fails or panics, after only successes, is the outcome of the whole walk |
| Ecs.ContainerImages | services/ecs.go:72-74 | the loop over container definitions appends each image's tag, or panics at the first image without `:` |
| Ecs.TaskImages | services/ecs.go:65-75 | one task: `DescribeTaskDefinition`'s error is returned, otherwise the tags of its containers |
| Ecs.ClusterImages | services/ecs.go:42-76 | one cluster: a `ListTasks` or `DescribeTasks` error is returned, otherwise the tags of its tasks in order, stopping at the first failing task |
| Ecs.FindActiveImages | services/ecs.go:27-78 | a `ListClusters` error is returned, otherwise the concatenated tags of the clusters on its first page, stopping at the first failure; equals `ActiveImages` |
| Ecs.TagsOfAppend | services/ecs.go:72-74 | tagging two runs of definitions is tagging each and concatenating, a panic in the first taking precedence |
| Ecs.ThenAgrees | services/ecs.go:42-76 | the outcome of reaching two runs of definitions in turn is the first run's outcome followed by the second's |
| Ecs.ScanAllAgrees | services/ecs.go:42-76 | a walk whose every step ends as its definitions dictate ends as all the definitions reached dictate |
| Ecs.ContainersScanAgrees | services/ecs.go:72-74 | the container loop computes exactly the tags of the definitions |
| Ecs.ClusterAgrees | services/ecs.go:47-75 | one cluster's walk ends as the definitions it reaches dictate: a `ListTasks` or `DescribeTasks` error is returned as that error |
| Ecs.ActiveImagesAgree | services/ecs.go:27-78 | `FindActiveImages` panics if a container definition it reaches has no `:`; otherwise it returns the first API error reached; otherwise one tag per definition, in cluster, task, container order |
| Ecs.FoundTagsPerDefinition | services/ecs.go:73 | on success no error was reached, and there is exactly one tag per container definition reached, in order, that definition's `TagOf` |
| Ecs.FailureDiscardsTags | services/ecs.go:33-71 | when an API error is reached, no tags are returned: the error itself comes back when every definition reached before it has a `:`, and a panic otherwise |
| Ecs.PanicsIffUntaggedReached | services/ecs.go:73 | the walk panics exactly when a container definition it reaches has no `:` |
| Ecs.ScanAllSameSteps | services/ecs.go:42-76 | walks whose steps agree on every item have the same outcome |
| Ecs.OnlyFirstClusterPage | services/ecs.go:29-32 | the `NextToken` of `ListClusters` has no effect: only the first page is read |
| Cleaner.FindStale | main.go:61-79 | the nested loop with its `match` flag and breaks keeps exactly the images that are not `Kept`, in order |
| Cleaner.StaleIsOrderedSelection | main.go:61-79 | the stale images are the images at strictly increasing positions, and a position is chosen iff its image is untagged or its tag is not running |
| Cleaner.UntaggedIsStale | main.go:66-68 | an untagged image is always stale |
| Cleaner.TaggedStaleIff | main.go:69-77 | a tagged image is stale iff its tag is not among the running tags |
| Cleaner.NothingRunningAllStale | main.go:62-79 | with no running images every image is stale |
| Cleaner.Cleaner.constructor | main.go:13 | the log buffer, the output and the requests start empty |
| Cleaner.Cleaner.OutputLog | main.go:95-101 | the buffered lines are written in order, then the rule line, and the buffer is emptied |
| Cleaner.Cleaner.PurgeOrCount | main.go:81-90 | a dry run buffers the would-purge count and deletes nothing; otherwise it runs `PurgeImages`, writes its error at once if there is one, records the requests made and buffers the purged count |
| Cleaner.Cleaner.CleanRepository | main.go:53-91 | one repository writes the listing error if any, then the purge error if any, then its header, the count line and the rule, as `StepLines`; it issues exactly the requests of `CleanStep` |
| Cleaner.Cleaner.CleanRepositories | main.go:52-92 | the repositories are cleaned in order; output and requests are the concatenation of their blocks |
| Cleaner.Cleaner.Run | main.go:31-92 | writes the repository-listing error, the ECS error, the settings block and then every repository's block; a panic in the tag parsing stops the run after the first line with no requests made |
| Cleaner.DryRunDeletesNothing | main.go:82-83 | a dry run issues no `BatchDeleteImage` request for any repository |
| Cleaner.StepReportsStaleCount | main.go:58-91 | each repository block ends with its header, the count of stale images and the rule; a dry run sends nothing, and a live run hands exactly the stale images to `PurgeImages` |
| Cleaner.ListingErrorPurgesNothing | main.go:54-57 | a repository whose listing fails has no stale images and no purge |
| Cleaner.ActiveFailureMakesAllStale | main.go:37-40 | when `FindActiveImages` fails, every listed image is stale |
| Cleaner.RepositoriesSnoc | main.go:52-92 | one more repository appends its block and its requests at the end |
| Cleaner.RepositoryBlock | main.go:52-92 | each repository's lines sit, contiguous, between those of the repositories before and after it |
| Cleaner.PanicStopsRun | services/ecs.go:73 | a panic while parsing a tag stops the run: nothing is purged, and the only line written is the repository-listing error, if there was one |
| Cleaner.OnlyFirstRepositoryPage | services/ecr.go:27 | the `NextToken` of `DescribeRepositories` changes neither the lines written nor the deletion requests: only the first page is read |
| Cleaner.SameRepliesSameBlocks | main.go:52-92 | registries that answer `ListImages` and `BatchDeleteImage` alike produce the same repository blocks and requests |
| Cleaner.SvcExample | main.go:52-92 | repository `svc` with images tagged a, b, c and one untagged, and `b` running: a, c and the untagged image are purged in one batch and the block reads header / `[PURGED] 3` / rule; a dry run reads `[DRY RUN] 3` and sends nothing |

## Left out

- Client construction (`NewECRClient`, `NewECSClient`), sessions and regions: the region
  appears only as the value written in the settings block.
- Command-line flag parsing: `dry` and `region` are parameters of `Run`.
- The exact text of each log line (`fmt.Sprintf`, logrus levels and formatting): lines
  are values of the `Line` datatype, one constructor per message.
- Error lines written straight to the logger are in `output` at the moment they are
  written. Buffered lines reach `output` when `OutputLog` runs. The interleaving of the
  two streams is kept; the log levels are not.
- The `clusterARNs` slice built in `FindActiveImages`: nothing reads it.
- `ListTasks` and `DescribeTasks` pagination: the code reads one reply of each, and so
  does the model.
- The `ImageIdentifier` pointers: an image identifier is a value. The `nil` tag is
  `None`.
- A Go panic is an outcome (`Scan.Panicked`, `Run` returning `crashed`), not a process
  exit.
- The `BatchDeleteImage` response body (failures listed per image): `BatchPurge` looks
  only at the call's error, and so does the model.
- Ecr.ListImages: it requires that the registry eventually answers with an error or a
  last page (`Ends`), and `Listing` builds this in. A registry that hands out tokens
  forever makes the Go loop run forever; that case is not modelled.
- Ecr.ListImages: the `tokens` it records are ghost. They describe the requests sent,
  not a value the source returns.
- Cleaner.Cleaner.CleanRepositories, Cleaner.Cleaner.CleanRepository and
  Cleaner.Cleaner.PurgeOrCount: in the source these are parts of `main`.
  - CleanRepositories is the repository loop (main.go:52-92).
  - CleanRepository is its body (main.go:53-91).
  - PurgeOrCount is the dry-run / purge branch inside that body (main.go:81-90).

  Each is a method of its own, with the same statements in the same order.
