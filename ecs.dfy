/**
  The orchestrator side of the cleaner (services/ecs.go): FindActiveImages walks
  the clusters, their running tasks and the container definitions of those tasks,
  and records one "tag" per container definition.

  The recorded tag is element 1 of the image reference split on ':', that is the
  text between the first and the second ':' ("host:5000/repo:v1" gives "5000/repo").
  A reference without ':' makes that index out of range, which in Go is a runtime
  panic; the model makes the panic an explicit outcome, Scan.Panicked.
*/
module Ecs {
  import opened Common

  /** The reply to ListClusters; its NextToken is never followed. */
  datatype ClusterPage = ClusterPage(clusterArns: seq<string>, nextToken: Option<string>)

  datatype Task = Task(taskDefinitionArn: string)

  datatype ContainerDefinition = ContainerDefinition(image: string)

  /**
    Everything ECS answers during one FindActiveImages call: the one ListClusters
    reply, and the replies to ListTasks (running tasks of a cluster), DescribeTasks
    and DescribeTaskDefinition as functions of their requests.
  */
  datatype Api = Api(
    listClusters: Result<ClusterPage, AwsError>,
    listTasks: string -> Result<seq<string>, AwsError>,
    describeTasks: (string, seq<string>) -> Result<seq<Task>, AwsError>,
    describeTaskDefinition: string -> Result<seq<ContainerDefinition>, AwsError>)

  // ---------------------------------------------------------------------------
  // strings.Split and the tag extraction
  // ---------------------------------------------------------------------------

  /** Go's strings.Split for a one-character separator: always at least one part. */
  function Split(s: string, sep: char): (parts: seq<string>)
    ensures |parts| >= 1
    decreases |s|
  {
    if s == [] then [[]]
    else
      var rest := Split(s[1..], sep);
      if s[0] == sep then [[]] + rest else [[s[0]] + rest[0]] + rest[1..]
  }

  /** strings.Join: the parts with the separator between them. */
  function Join(parts: seq<string>, sep: char): string
    requires |parts| >= 1
    decreases |parts|
  {
    if |parts| == 1 then parts[0] else parts[0] + [sep] + Join(parts[1..], sep)
  }

  /** The number of occurrences of c in s. */
  function Occurrences(s: string, c: char): nat
    decreases |s|
  {
    if s == [] then 0 else (if s[0] == c then 1 else 0) + Occurrences(s[1..], c)
  }

  /** Joining the parts of a split gives back the string. */
  lemma {:induction false} SplitJoin(s: string, sep: char)
    ensures Join(Split(s, sep), sep) == s
    decreases |s|
  {
    if s != [] {
      var rest := Split(s[1..], sep);
      SplitJoin(s[1..], sep);
      if s[0] == sep {
        assert ([[]] + rest)[1..] == rest;
      } else if |rest| > 1 {
        assert ([[s[0]] + rest[0]] + rest[1..])[1..] == rest[1..];
        assert s == [s[0]] + s[1..];
      } else {
        assert s == [s[0]] + s[1..];
      }
    }
  }

  /** There is one more part than there are separators, and no part holds a separator. */
  lemma {:induction false} SplitParts(s: string, sep: char)
    ensures |Split(s, sep)| == Occurrences(s, sep) + 1
    ensures forall p :: p in Split(s, sep) ==> sep !in p
    ensures Occurrences(s, sep) > 0 <==> sep in s
    decreases |s|
  {
    if s != [] {
      SplitParts(s[1..], sep);
      var rest := Split(s[1..], sep);
      assert rest[0] in rest;
      if s[0] != sep {
        forall p | p in Split(s, sep) ensures sep !in p {
          if p != [s[0]] + rest[0] {
            assert p in rest[1..];
          }
        }
      }
      assert sep in s <==> s[0] == sep || sep in s[1..] by {
        assert s == [s[0]] + s[1..];
      }
    }
  }

  lemma {:induction false} SplitWithoutSeparator(s: string, sep: char)
    requires sep !in s
    ensures Split(s, sep) == [s]
    decreases |s|
  {
    if s != [] {
      assert sep !in s[1..] by {
        assert forall i :: 0 <= i < |s| - 1 ==> s[1..][i] == s[i + 1];
      }
      SplitWithoutSeparator(s[1..], sep);
      assert s == [s[0]] + s[1..];
    }
  }

  lemma {:induction false} SplitAtFirstSeparator(a: string, sep: char, b: string)
    requires sep !in a
    ensures Split(a + [sep] + b, sep) == [a] + Split(b, sep)
    decreases |a|
  {
    if a != [] {
      assert sep !in a[1..] by {
        assert forall i :: 0 <= i < |a| - 1 ==> a[1..][i] == a[i + 1];
      }
      SplitAtFirstSeparator(a[1..], sep, b);
      assert (a + [sep] + b)[1..] == a[1..] + [sep] + b;
      assert a == [a[0]] + a[1..];
    } else {
      assert a + [sep] + b == [sep] + b;
      assert ([sep] + b)[1..] == b;
    }
  }

  /** The tag services/ecs.go records for an image reference: `strings.Split(image, ":")[1]`. */
  function TagOf(image: string): (tag: Option<string>)
    ensures tag.Some? <==> ':' in image
  {
    SplitParts(image, ':');
    var parts := Split(image, ':');
    if |parts| > 1 then Some(parts[1]) else None
  }

  /**
    The extracted tag is the text between the first ':' (at i) and the next ':'
    (at j) or the end of the reference; it is not the last segment.
  */
  lemma TagBetweenFirstTwoColons(image: string, i: nat, j: nat)
    requires i < j <= |image| && image[i] == ':'
    requires ':' !in image[..i] && ':' !in image[i + 1..j]
    requires j == |image| || image[j] == ':'
    ensures TagOf(image) == Some(image[i + 1..j])
  {
    var a, t, rest := image[..i], image[i + 1..j], image[j..];
    assert image == a + [':'] + (t + rest);
    SplitAtFirstSeparator(a, ':', t + rest);
    if rest == [] {
      assert t + rest == t;
      SplitWithoutSeparator(t, ':');
    } else {
      assert t + rest == t + [':'] + rest[1..];
      SplitAtFirstSeparator(t, ':', rest[1..]);
    }
  }

  lemma TagExamples(plain: string, withPort: string, untagged: string)
    requires plain == "nginx:1.25" && withPort == "host:5000/repo:v1" && untagged == "nginx"
    ensures TagOf(plain) == Some("1.25")
    ensures TagOf(withPort) == Some("5000/repo")
    ensures TagOf(untagged) == None
  {
    PlainTag(plain);
    PortTag(withPort);
  }

  lemma PlainTag(plain: string)
    requires plain == "nginx:1.25"
    ensures TagOf(plain) == Some("1.25")
  {
    TagBetweenFirstTwoColons(plain, 5, 10);
    assert plain[6..10] == "1.25";
  }

  lemma PortTag(withPort: string)
    requires withPort == "host:5000/repo:v1"
    ensures TagOf(withPort) == Some("5000/repo")
  {
    TagBetweenFirstTwoColons(withPort, 4, 14);
    assert withPort[5..14] == "5000/repo";
  }


  // ---------------------------------------------------------------------------
  // The walk over clusters, tasks and container definitions
  // ---------------------------------------------------------------------------

  /** How a walk ends: with the tags, with the first API error, or with a panic. */
  datatype Scan = Found(tags: seq<string>) | Failed(error: AwsError) | Panicked

  /** Runs `first`, then `next` only if `first` found its tags; the tags are concatenated. */
  function Then(first: Scan, next: Scan): Scan
  {
    match first
    case Found(a) => (match next case Found(b) => Found(a + b) case _ => next)
    case _ => first
  }

  /** The walk over `items` in order, stopping at the first item whose step does not find. */
  function ScanAll<T>(items: seq<T>, step: T -> Scan): Scan
    decreases |items|
  {
    if items == [] then Found([]) else Then(ScanAll(items[..|items| - 1], step), step(items[|items| - 1]))
  }

  function ContainerTag(container: ContainerDefinition): Scan
  {
    match TagOf(container.image)
    case Some(tag) => Found([tag])
    case None => Panicked
  }

  function ContainersScan(containers: seq<ContainerDefinition>): Scan
  {
    ScanAll(containers, ContainerTag)
  }

  /** One task: DescribeTaskDefinition, then its container definitions. */
  function TaskTags(api: Api, task: Task): Scan
  {
    match api.describeTaskDefinition(task.taskDefinitionArn)
    case Err(e) => Failed(e)
    case Ok(containers) => ContainersScan(containers)
  }

  function TasksScan(api: Api, tasks: seq<Task>): Scan
  {
    ScanAll(tasks, (task: Task) => TaskTags(api, task))
  }

  /** One cluster: ListTasks (running), DescribeTasks, then each task. */
  function ClusterTags(api: Api, arn: string): Scan
  {
    match api.listTasks(arn)
    case Err(e) => Failed(e)
    case Ok(taskArns) =>
      match api.describeTasks(arn, taskArns)
      case Err(e) => Failed(e)
      case Ok(tasks) => TasksScan(api, tasks)
  }

  function ClustersScan(api: Api, arns: seq<string>): Scan
  {
    ScanAll(arns, (arn: string) => ClusterTags(api, arn))
  }

  /** What FindActiveImages ends with: one ListClusters call, then each listed cluster. */
  function ActiveImages(api: Api): Scan
  {
    match api.listClusters
    case Err(e) => Failed(e)
    case Ok(page) => ClustersScan(api, page.clusterArns)
  }

  lemma ScanAllStep<T>(items: seq<T>, i: nat, step: T -> Scan)
    requires i < |items|
    ensures ScanAll(items[..i + 1], step) == Then(ScanAll(items[..i], step), step(items[i]))
  {
    assert items[..i + 1][..i] == items[..i];
  }

  /** Once a step fails or panics, the walk over the whole sequence ends the same way. */
  lemma {:induction false} ScanAllAbort<T>(items: seq<T>, i: nat, step: T -> Scan)
    requires i < |items|
    requires ScanAll(items[..i], step).Found? && !step(items[i]).Found?
    ensures ScanAll(items, step) == step(items[i])
    decreases |items|
  {
    if i + 1 == |items| {
      assert items[..|items| - 1] == items[..i];
    } else {
      var prefix := items[..|items| - 1];
      assert prefix[..i] == items[..i];
      ScanAllAbort(prefix, i, step);
    }
  }

  /** The innermost loop: one tag per container definition, panicking on a reference without ':'. */
  method ContainerImages(containers: seq<ContainerDefinition>) returns (scan: Scan)
    ensures scan == ContainersScan(containers)
  {
    var tags: seq<string> := [];
    var k := 0;
    while k < |containers|
      invariant 0 <= k <= |containers|
      invariant ContainersScan(containers[..k]) == Found(tags)
    {
      ScanAllStep(containers, k, ContainerTag);
      var tag := TagOf(containers[k].image);
      if tag.None? {
        ScanAllAbort(containers, k, ContainerTag);
        return Panicked;
      }
      tags := tags + [tag.value];
      k := k + 1;
    }
    assert containers[..k] == containers;
    scan := Found(tags);
  }

  /** The body of the loop over tasks: DescribeTaskDefinition, then its containers. */
  method TaskImages(api: Api, task: Task) returns (scan: Scan)
    ensures scan == TaskTags(api, task)
  {
    var definition := api.describeTaskDefinition(task.taskDefinitionArn);
    if definition.Err? {
      return Failed(definition.error);
    }
    scan := ContainerImages(definition.value);
  }

  /** The body of the loop over clusters: ListTasks, DescribeTasks, then each task. */
  method ClusterImages(api: Api, arn: string) returns (scan: Scan)
    ensures scan == ClusterTags(api, arn)
  {
    var runningTasks := api.listTasks(arn);
    if runningTasks.Err? {
      return Failed(runningTasks.error);
    }
    var described := api.describeTasks(arn, runningTasks.value);
    if described.Err? {
      return Failed(described.error);
    }
    var tasks := described.value;
    var tags: seq<string> := [];
    var t := 0;
    while t < |tasks|
      invariant 0 <= t <= |tasks|
      invariant TasksScan(api, tasks[..t]) == Found(tags)
    {
      ScanAllStep(tasks, t, (task: Task) => TaskTags(api, task));
      var found := TaskImages(api, tasks[t]);
      if !found.Found? {
        ScanAllAbort(tasks, t, (task: Task) => TaskTags(api, task));
        return found;
      }
      tags := tags + found.tags;
      t := t + 1;
    }
    assert tasks[..t] == tasks;
    scan := Found(tags);
  }

  /**
    Walks the clusters of the one ListClusters page, their running tasks and the
    tasks' container definitions, appending one tag per container definition; the
    first error or panic ends the walk and discards the tags collected so far.
  */
  method FindActiveImages(api: Api) returns (scan: Scan)
    ensures scan == ActiveImages(api)
  {
    var clusters := api.listClusters;
    if clusters.Err? {
      return Failed(clusters.error);
    }
    var arns := clusters.value.clusterArns;
    var runningImages: seq<string> := [];
    var c := 0;
    while c < |arns|
      invariant 0 <= c <= |arns|
      invariant ClustersScan(api, arns[..c]) == Found(runningImages)
    {
      ScanAllStep(arns, c, (arn: string) => ClusterTags(api, arn));
      var found := ClusterImages(api, arns[c]);
      if !found.Found? {
        ScanAllAbort(arns, c, (arn: string) => ClusterTags(api, arn));
        return found;
      }
      runningImages := runningImages + found.tags;
      c := c + 1;
    }
    assert arns[..c] == arns;
    scan := Found(runningImages);
  }

  // ---------------------------------------------------------------------------
  // A reference for the walk: the container definitions it reaches
  // ---------------------------------------------------------------------------

  /**
    The container definitions a walk reaches, in cluster, task, container order, up to
    the first API error; `error` is that error, if one was reached.
  */
  datatype Definitions = Reached(containers: seq<ContainerDefinition>, error: Option<AwsError>)

  /** Reaches `first`, then `next` only if `first` reached no error. */
  function Append(first: Definitions, next: Definitions): Definitions
  {
    if first.error.Some? then first else Reached(first.containers + next.containers, next.error)
  }

  function GatherAll<T>(items: seq<T>, step: T -> Definitions): Definitions
    decreases |items|
  {
    if items == [] then Reached([], None) else Append(GatherAll(items[..|items| - 1], step), step(items[|items| - 1]))
  }

  function TaskDefinitions(api: Api, task: Task): Definitions
  {
    match api.describeTaskDefinition(task.taskDefinitionArn)
    case Err(e) => Reached([], Some(e))
    case Ok(containers) => Reached(containers, None)
  }

  function ClusterDefinitions(api: Api, arn: string): Definitions
  {
    match api.listTasks(arn)
    case Err(e) => Reached([], Some(e))
    case Ok(taskArns) =>
      match api.describeTasks(arn, taskArns)
      case Err(e) => Reached([], Some(e))
      case Ok(tasks) => GatherAll(tasks, (task: Task) => TaskDefinitions(api, task))
  }

  /** Every container definition reached by the calls of FindActiveImages, and the first error. */
  function AllDefinitions(api: Api): Definitions
  {
    match api.listClusters
    case Err(e) => Reached([], Some(e))
    case Ok(page) => GatherAll(page.clusterArns, (arn: string) => ClusterDefinitions(api, arn))
  }

  predicate AllTagged(containers: seq<ContainerDefinition>)
  {
    forall i :: 0 <= i < |containers| ==> ':' in containers[i].image
  }

  /** The tags of the given definitions, one each and in order, or a panic if one has no ':'. */
  function TagsOf(containers: seq<ContainerDefinition>): Scan
  {
    if AllTagged(containers) then
      Found(seq(|containers|, i requires 0 <= i < |containers| && AllTagged(containers) =>
        TagOf(containers[i].image).value))
    else Panicked
  }

  /**
    How a walk over the given definitions must end: a panic if one reached has no ':'
    (it comes before the error), otherwise the error, otherwise the tags.
  */
  function Outcome(definitions: Definitions): Scan
  {
    if !AllTagged(definitions.containers) then Panicked
    else if definitions.error.Some? then Failed(definitions.error.value)
    else TagsOf(definitions.containers)
  }

  lemma TagsOfAppend(a: seq<ContainerDefinition>, b: seq<ContainerDefinition>)
    ensures TagsOf(a + b) == Then(TagsOf(a), TagsOf(b))
  {
    if AllTagged(a) && AllTagged(b) {
      assert AllTagged(a + b) by {
        forall i | 0 <= i < |a + b| ensures ':' in (a + b)[i].image {
          if i >= |a| {
            assert (a + b)[i] == b[i - |a|];
          }
        }
      }
      assert TagsOf(a + b).tags == TagsOf(a).tags + TagsOf(b).tags;
    } else if !AllTagged(a) {
      var i :| 0 <= i < |a| && ':' !in a[i].image;
      assert (a + b)[i] == a[i];
    } else {
      var i :| 0 <= i < |b| && ':' !in b[i].image;
      assert (a + b)[|a| + i] == b[i];
    }
  }

  lemma ThenAgrees(d1: Definitions, d2: Definitions)
    ensures Then(Outcome(d1), Outcome(d2)) == Outcome(Append(d1, d2))
  {
    if d1.error.None? {
      TagsOfAppend(d1.containers, d2.containers);
    }
  }

  lemma {:induction false} ScanAllAgrees<T>(items: seq<T>, step: T -> Scan, gather: T -> Definitions)
    requires forall x :: x in items ==> step(x) == Outcome(gather(x))
    ensures ScanAll(items, step) == Outcome(GatherAll(items, gather))
    decreases |items|
  {
    if items == [] {
      assert TagsOf([]) == Found([]);
    } else {
      var prefix := items[..|items| - 1];
      ScanAllAgrees(prefix, step, gather);
      assert items[|items| - 1] in items;
      ThenAgrees(GatherAll(prefix, gather), gather(items[|items| - 1]));
    }
  }

  lemma {:induction false} ContainersScanAgrees(containers: seq<ContainerDefinition>)
    ensures ContainersScan(containers) == TagsOf(containers)
    decreases |containers|
  {
    if containers == [] {
      assert TagsOf([]) == Found([]);
    } else {
      var prefix, last := containers[..|containers| - 1], containers[|containers| - 1];
      ContainersScanAgrees(prefix);
      assert containers == prefix + [last];
      TagsOfAppend(prefix, [last]);
      if ':' in last.image {
        assert TagsOf([last]) == Found([TagOf(last.image).value]);
      } else {
        assert !AllTagged([last]);
      }
    }
  }

  lemma ClusterAgrees(api: Api, arn: string)
    ensures ClusterTags(api, arn) == Outcome(ClusterDefinitions(api, arn))
  {
    if api.listTasks(arn).Ok? && api.describeTasks(arn, api.listTasks(arn).value).Ok? {
      var tasks := api.describeTasks(arn, api.listTasks(arn).value).value;
      forall task | task in tasks
        ensures TaskTags(api, task) == Outcome(TaskDefinitions(api, task))
      {
        if api.describeTaskDefinition(task.taskDefinitionArn).Ok? {
          ContainersScanAgrees(api.describeTaskDefinition(task.taskDefinitionArn).value);
        }
      }
      ScanAllAgrees(tasks, (task: Task) => TaskTags(api, task), (task: Task) => TaskDefinitions(api, task));
    }
  }

  /**
    FindActiveImages ends as the definitions it reaches dictate: a panic if some
    reached reference has no ':', otherwise the first error, otherwise one tag per
    container definition, in cluster, task, container order (duplicates kept).
  */
  lemma ActiveImagesAgree(api: Api)
    ensures ActiveImages(api) == Outcome(AllDefinitions(api))
  {
    if api.listClusters.Ok? {
      var arns := api.listClusters.value.clusterArns;
      forall arn | arn in arns
        ensures ClusterTags(api, arn) == Outcome(ClusterDefinitions(api, arn))
      {
        ClusterAgrees(api, arn);
      }
      ScanAllAgrees(arns, (arn: string) => ClusterTags(api, arn), (arn: string) => ClusterDefinitions(api, arn));
    }
  }

  /** On success there is exactly one tag per container definition, each its image's TagOf. */
  lemma FoundTagsPerDefinition(api: Api)
    requires ActiveImages(api).Found?
    ensures AllDefinitions(api).error.None?
    ensures var tags, defs := ActiveImages(api).tags, AllDefinitions(api).containers;
      |tags| == |defs| && forall i :: 0 <= i < |defs| ==> TagOf(defs[i].image) == Some(tags[i])
  {
    ActiveImagesAgree(api);
  }

  /**
    An error that is reached discards the tags collected so far and is returned, unless
    a reference reached before it has no ':'.
  */
  lemma FailureDiscardsTags(api: Api)
    requires AllDefinitions(api).error.Some?
    ensures ActiveImages(api) ==
      if AllTagged(AllDefinitions(api).containers) then Failed(AllDefinitions(api).error.value) else Panicked
  {
    ActiveImagesAgree(api);
  }

  /** FindActiveImages panics exactly when a container definition it reaches has no ':'. */
  lemma PanicsIffUntaggedReached(api: Api)
    ensures ActiveImages(api).Panicked? <==> !AllTagged(AllDefinitions(api).containers)
  {
    ActiveImagesAgree(api);
    if AllTagged(AllDefinitions(api).containers) && AllDefinitions(api).error.None? {
      assert TagsOf(AllDefinitions(api).containers).Found?;
    }
  }

  lemma {:induction false} ScanAllSameSteps<T>(items: seq<T>, step: T -> Scan, step': T -> Scan)
    requires forall x :: x in items ==> step(x) == step'(x)
    ensures ScanAll(items, step) == ScanAll(items, step')
    decreases |items|
  {
    if items != [] {
      ScanAllSameSteps(items[..|items| - 1], step, step');
      assert items[|items| - 1] in items;
    }
  }

  /** Only the first page of clusters is read: the NextToken of ListClusters is ignored. */
  lemma OnlyFirstClusterPage(api: Api, arns: seq<string>, token: Option<string>)
    requires api.listClusters == Ok(ClusterPage(arns, token))
    ensures ActiveImages(api) == ActiveImages(api.(listClusters := Ok(ClusterPage(arns, None))))
  {
    var api' := api.(listClusters := Ok(ClusterPage(arns, None)));
    forall arn | arn in arns ensures ClusterTags(api, arn) == ClusterTags(api', arn) {
      if api.listTasks(arn).Ok? && api.describeTasks(arn, api.listTasks(arn).value).Ok? {
        var tasks := api.describeTasks(arn, api.listTasks(arn).value).value;
        ScanAllSameSteps(tasks, (task: Task) => TaskTags(api, task), (task: Task) => TaskTags(api', task));
      }
    }
    ScanAllSameSteps(arns, (arn: string) => ClusterTags(api, arn), (arn: string) => ClusterTags(api', arn));
  }
}
