/**
  The registry side of the cleaner (services/ecr.go): listing repositories,
  listing the image identifiers of one repository page by page, and deleting
  stale images in batches of at most 100.

  The AWS SDK is not modelled: every reply the registry gives is an input.
*/
module Ecr {
  import opened Common

  /** The batch size hard-coded in PurgeImages (the provider's own maximum). */
  const MaxBatch: nat := 100

  datatype Repository = Repository(name: string)

  /** The one DescribeRepositories reply read: some repositories and a continuation token. */
  datatype RepositoryPage = RepositoryPage(repositories: seq<Repository>, nextToken: Option<string>)

  /** One reply of the ListImages API: some identifiers and the continuation token. */
  datatype Page = Page(imageIds: seq<ImageId>, nextToken: Option<string>)

  type PageReply = Result<Page, AwsError>

  /** The error PurgeImages returns: it names the repository and wraps the cause. */
  datatype PurgeError = PurgeError(repository: string, cause: AwsError)

  /** The replies to one repository's ListImages calls; the registry eventually stops. */
  type Listing = replies: seq<PageReply> | Ends(replies) witness [Err(AwsError([]))]

  /**
    Everything the registry answers during one run:
    - the reply to DescribeRepositories;
    - for each repository, the replies to its successive ListImages calls;
    - for each repository, the reply to its k-th BatchDeleteImage call (None is success).
  */
  datatype Registry = Registry(
    describeRepositories: Result<RepositoryPage, AwsError>,
    listImages: string -> Listing,
    batchDeleteImage: string -> nat -> Option<AwsError>)

  // ---------------------------------------------------------------------------
  // ListRepositories
  // ---------------------------------------------------------------------------

  /** The repository names, in the order DescribeRepositories gave them. */
  function Names(repositories: seq<Repository>): seq<string>
  {
    seq(|repositories|, i requires 0 <= i < |repositories| => repositories[i].name)
  }

  /** What ListRepositories yields: an empty slice on error; the NextToken is never followed. */
  function RepositoryNames(described: Result<RepositoryPage, AwsError>): seq<string>
  {
    if described.Ok? then Names(described.value.repositories) else []
  }

  /** One DescribeRepositories call; only the first page of repositories is read. */
  method ListRepositories(described: Result<RepositoryPage, AwsError>)
    returns (names: seq<string>, err: Option<AwsError>)
    ensures described.Err? ==> names == [] && err == Some(described.error)
    ensures described.Ok? ==> err == None && |names| == |described.value.repositories|
    ensures described.Ok? ==>
      forall i :: 0 <= i < |names| ==> names[i] == described.value.repositories[i].name
  {
    if described.Err? {
      return [], Some(described.error);
    }
    var repositories := described.value.repositories;
    names := [];
    for i := 0 to |repositories|
      invariant |names| == i
      invariant forall j :: 0 <= j < i ==> names[j] == repositories[j].name
    {
      names := names + [repositories[i].name];
    }
    err := None;
  }

  // ---------------------------------------------------------------------------
  // ListImages
  // ---------------------------------------------------------------------------

  /** A reply after which ListImages makes no further call. */
  predicate Stops(reply: PageReply)
  {
    reply.Err? || reply.value.nextToken.None?
  }

  /** The first reply at or after `from` that stops the listing, if there is one. */
  function StopAt(replies: seq<PageReply>, from: nat): (k: Option<nat>)
    ensures k.Some? ==> from <= k.value < |replies| && Stops(replies[k.value])
    ensures k.Some? ==> forall j :: from <= j < k.value ==> !Stops(replies[j])
    ensures k.None? ==> forall j :: from <= j < |replies| ==> !Stops(replies[j])
    decreases |replies| - from
  {
    if from >= |replies| then None
    else if Stops(replies[from]) then Some(from)
    else StopAt(replies, from + 1)
  }

  /** The registry eventually answers with an error or with a last page. */
  predicate Ends(replies: seq<PageReply>)
  {
    StopAt(replies, 0).Some?
  }

  /** The index of the reply that ends the listing. */
  function FirstStop(replies: seq<PageReply>): nat
    requires Ends(replies)
  {
    StopAt(replies, 0).value
  }

  /** The identifiers of the first n pages, concatenated in page order. */
  function Gathered(replies: seq<PageReply>, n: nat): seq<ImageId>
    requires n <= |replies|
    requires forall k :: 0 <= k < n ==> replies[k].Ok?
  {
    if n == 0 then [] else Gathered(replies, n - 1) + replies[n - 1].value.imageIds
  }

  /**
    What ListImages returns for the given replies: the concatenation of all pages
    up to the one without a NextToken, or the first error (the pages gathered so
    far are then discarded).
  */
  function Listed(replies: seq<PageReply>): Result<seq<ImageId>, AwsError>
    requires Ends(replies)
  {
    var last := FirstStop(replies);
    if replies[last].Err? then Err(replies[last].error) else Ok(Gathered(replies, last + 1))
  }

  /**
    Follows the continuation tokens of one repository's listing. `replies[k]` is the
    registry's answer to the k-th call; `tokens` records the NextToken sent with each call.
  */
  method ListImages(repository: string, replies: seq<PageReply>)
    returns (imageIds: seq<ImageId>, err: Option<AwsError>, ghost tokens: seq<Option<string>>)
    requires Ends(replies)
    ensures |tokens| == FirstStop(replies) + 1
    ensures tokens[0] == None
    ensures forall k :: 0 < k < |tokens| ==> tokens[k] == replies[k - 1].value.nextToken
    ensures Listed(replies).Ok? ==> err == None && imageIds == Listed(replies).value
    ensures Listed(replies).Err? ==> err == Some(Listed(replies).error) && imageIds == []
  {
    ghost var last := FirstStop(replies);
    var token: Option<string> := None;
    var k := 0;
    imageIds, tokens := [], [];
    while true
      invariant k <= last
      invariant imageIds == Gathered(replies, k)
      invariant |tokens| == k
      invariant token == if k == 0 then None else replies[k - 1].value.nextToken
      invariant forall j :: 0 < j < k ==> tokens[j] == replies[j - 1].value.nextToken
      invariant k > 0 ==> tokens[0] == None
      decreases last - k
    {
      tokens := tokens + [token];
      var reply := replies[k];
      if reply.Err? {
        imageIds, err := [], Some(reply.error);
        return;
      }
      imageIds := imageIds + reply.value.imageIds;
      token := reply.value.nextToken;
      if token.None? {
        break;
      }
      k := k + 1;
    }
    err := None;
  }

  lemma {:induction false} GatheredPrefix(replies: seq<PageReply>, n: nat, m: nat)
    requires n <= m <= |replies|
    requires forall k :: 0 <= k < m ==> replies[k].Ok?
    ensures |Gathered(replies, n)| <= |Gathered(replies, m)|
    ensures Gathered(replies, m)[..|Gathered(replies, n)|] == Gathered(replies, n)
    decreases m
  {
    if n < m {
      GatheredPrefix(replies, n, m - 1);
    }
  }

  lemma {:induction false} GatheredIgnoresLaterReplies(replies: seq<PageReply>, n: nat, more: seq<PageReply>)
    requires n <= |replies|
    requires forall k :: 0 <= k < n ==> replies[k].Ok?
    ensures Gathered(replies + more, n) == Gathered(replies, n)
  {
    if n > 0 {
      GatheredIgnoresLaterReplies(replies, n - 1, more);
    }
  }

  /** The listing ends at the first page without a NextToken: later replies are never read. */
  lemma ListedEndsAtLastPage(replies: seq<PageReply>, more: seq<PageReply>)
    requires Ends(replies)
    ensures Ends(replies + more)
    ensures Listed(replies + more) == Listed(replies)
  {
    var last := FirstStop(replies);
    assert Stops((replies + more)[last]);
    assert FirstStop(replies + more) == last;
    if replies[last].Ok? {
      GatheredIgnoresLaterReplies(replies, last + 1, more);
    }
  }

  /** Every page of a successful listing contributes its identifiers, in page order. */
  lemma {:induction false} ListedContainsEveryPage(replies: seq<PageReply>, k: nat)
    requires Ends(replies) && Listed(replies).Ok?
    requires k <= FirstStop(replies)
    ensures replies[k].Ok?
    ensures var before := Gathered(replies, k);
      var ids := Listed(replies).value;
      |before| + |replies[k].value.imageIds| <= |ids|
      && ids[|before|..|before| + |replies[k].value.imageIds|] == replies[k].value.imageIds
  {
    var last := FirstStop(replies);
    GatheredPrefix(replies, k + 1, last + 1);
    var before := Gathered(replies, k);
    var page := replies[k].value.imageIds;
    assert Gathered(replies, k + 1) == before + page;
    assert Listed(replies).value == Gathered(replies, last + 1);
  }

  // ---------------------------------------------------------------------------
  // PurgeImages
  // ---------------------------------------------------------------------------

  /** Consecutive windows of MaxBatch images followed by one final (possibly empty) window. */
  function Chunks(images: seq<ImageId>): seq<seq<ImageId>>
    decreases |images|
  {
    if |images| < MaxBatch then [images] else [images[..MaxBatch]] + Chunks(images[MaxBatch..])
  }

  /** The slices PurgeImages hands to BatchPurge, in call order. */
  function Batches(images: seq<ImageId>): seq<seq<ImageId>>
  {
    if |images| == 0 then [] else Chunks(images)
  }

  function Concat(batches: seq<seq<ImageId>>): seq<ImageId>
  {
    if batches == [] then [] else Concat(batches[..|batches| - 1]) + batches[|batches| - 1]
  }

  function Sizes(batches: seq<seq<ImageId>>): seq<nat>
  {
    seq(|batches|, i requires 0 <= i < |batches| => |batches[i]|)
  }

  lemma {:induction false} ChunksCount(images: seq<ImageId>)
    ensures |Chunks(images)| == |images| / MaxBatch + 1
    decreases |images|
  {
    if |images| >= MaxBatch {
      ChunksCount(images[MaxBatch..]);
    }
  }

  /** The i-th chunk is the window the index loop of PurgeImages cuts. */
  lemma {:induction false} ChunkAt(images: seq<ImageId>, i: nat)
    requires i <= |images| / MaxBatch
    ensures |Chunks(images)| == |images| / MaxBatch + 1
    ensures i * MaxBatch <= |images|
    ensures i < |images| / MaxBatch ==>
      (i + 1) * MaxBatch <= |images| && Chunks(images)[i] == images[i * MaxBatch..(i + 1) * MaxBatch]
    ensures i == |images| / MaxBatch ==> Chunks(images)[i] == images[i * MaxBatch..]
    decreases |images|
  {
    ChunksCount(images);
    if i > 0 {
      var rest := images[MaxBatch..];
      ChunkAt(rest, i - 1);
      assert images[i * MaxBatch..] == rest[(i - 1) * MaxBatch..];
      if i < |images| / MaxBatch {
        assert images[i * MaxBatch..(i + 1) * MaxBatch] == rest[(i - 1) * MaxBatch..i * MaxBatch];
      }
    }
  }

  lemma {:induction false} ConcatAppend(a: seq<seq<ImageId>>, b: seq<seq<ImageId>>)
    ensures Concat(a + b) == Concat(a) + Concat(b)
    decreases |b|
  {
    if b != [] {
      var b' := b[..|b| - 1];
      assert (a + b)[..|a + b| - 1] == a + b';
      ConcatAppend(a, b');
    } else {
      assert a + b == a;
    }
  }

  lemma {:induction false} ChunksConcat(images: seq<ImageId>)
    ensures Concat(Chunks(images)) == images
    decreases |images|
  {
    if |images| < MaxBatch {
      assert Concat([images]) == Concat([]) + images;
    } else {
      var head, tail := images[..MaxBatch], images[MaxBatch..];
      assert Chunks(images) == [head] + Chunks(tail);
      ChunksConcat(tail);
      ConcatAppend([head], Chunks(tail));
      assert [head][..0] == [];
      assert Concat([head]) == head;
      assert head + tail == images;
    }
  }

  lemma {:induction false} ChunksBounded(images: seq<ImageId>)
    ensures forall b :: b in Chunks(images) ==> |b| <= MaxBatch
    decreases |images|
  {
    if |images| >= MaxBatch {
      ChunksBounded(images[MaxBatch..]);
    }
  }

  /**
    The batches cover the input exactly and in order, none exceeds MaxBatch, and a
    non-empty input takes n/100 + 1 calls, the last one empty when 100 divides n.
  */
  lemma BatchesPartition(images: seq<ImageId>)
    ensures Concat(Batches(images)) == images
    ensures forall b :: b in Batches(images) ==> |b| <= MaxBatch
    ensures |images| == 0 ==> Batches(images) == []
    ensures |images| > 0 ==> |Batches(images)| == |images| / MaxBatch + 1
    ensures |images| > 0 && |images| % MaxBatch == 0 ==> Batches(images)[|Batches(images)| - 1] == []
  {
    if |images| > 0 {
      ChunksConcat(images);
      ChunksBounded(images);
      ChunkAt(images, |images| / MaxBatch);
    }
  }

  lemma BatchesOf250()
    ensures forall images: seq<ImageId> :: |images| == 250 ==> Sizes(Batches(images)) == [100, 100, 50]
  {
    forall images: seq<ImageId> | |images| == 250
      ensures Sizes(Batches(images)) == [100, 100, 50]
    {
      var c1 := images[100..];
      var c2 := c1[100..];
      assert Chunks(c2) == [c2];
      assert Chunks(c1) == [c1[..100]] + [c2];
      assert Batches(images) == [images[..100], c1[..100], c2];
    }
  }

  lemma BatchesOf200()
    ensures forall images: seq<ImageId> :: |images| == 200 ==> Sizes(Batches(images)) == [100, 100, 0]
  {
    forall images: seq<ImageId> | |images| == 200
      ensures Sizes(Batches(images)) == [100, 100, 0]
    {
      var c1 := images[100..];
      var c2 := c1[100..];
      assert Chunks(c2) == [c2];
      assert Chunks(c1) == [c1[..100]] + [c2];
      assert Batches(images) == [images[..100], c1[..100], c2];
    }
  }

  /** The index of the first failing BatchDeleteImage call among the first n, or n. */
  function FirstFailure(reply: nat -> Option<AwsError>, n: nat): (k: nat)
    ensures k <= n
    ensures k < n ==> reply(k).Some?
    ensures forall j :: 0 <= j < k ==> reply(j).None?
  {
    if n == 0 then 0
    else
      var k := FirstFailure(reply, n - 1);
      if k < n - 1 then k else if reply(n - 1).Some? then n - 1 else n
  }

  /** The batches submitted, in call order, and the error PurgeImages returns. */
  datatype Purge = Purge(sent: seq<seq<ImageId>>, err: Option<PurgeError>)

  /**
    What PurgeImages does: it submits the batches in order and stops at the first
    one that fails, returning an error that names the repository.
  */
  function PurgeOutcome(repository: string, images: seq<ImageId>, reply: nat -> Option<AwsError>): Purge
  {
    var batches := Batches(images);
    var k := FirstFailure(reply, |batches|);
    if k < |batches| then Purge(batches[..k + 1], Some(PurgeError(repository, reply(k).value)))
    else Purge(batches, None)
  }

  /**
    Deletes `images` with one BatchPurge call per window of 100 and one final call
    for the tail. `reply(k)` is the answer to the k-th call; `sent` records the slices.
  */
  method PurgeImages(repository: string, images: seq<ImageId>, reply: nat -> Option<AwsError>)
    returns (err: Option<PurgeError>, ghost sent: seq<seq<ImageId>>)
    ensures Purge(sent, err) == PurgeOutcome(repository, images, reply)
    ensures err.None? <==> forall k :: 0 <= k < |Batches(images)| ==> reply(k).None?
    ensures err.Some? ==>
      err == Some(PurgeError(repository, reply(FirstFailure(reply, |Batches(images)|)).value))
  {
    sent := [];
    if |images| <= 0 {
      return None, sent;
    }
    ghost var batches := Batches(images);
    ChunksCount(images);
    var i := 0;
    while i < |images| / MaxBatch
      invariant 0 <= i <= |images| / MaxBatch
      invariant sent == batches[..i]
      invariant forall j :: 0 <= j < i ==> reply(j).None?
    {
      ChunkAt(images, i);
      var e := BatchPurge(repository, images[i * MaxBatch..(i + 1) * MaxBatch], reply, i);
      sent := sent + [images[i * MaxBatch..(i + 1) * MaxBatch]];
      if e.Some? {
        assert FirstFailure(reply, |batches|) == i;
        return Some(PurgeError(repository, e.value)), sent;
      }
      i := i + 1;
    }
    ChunkAt(images, i);
    var e := BatchPurge(repository, images[i * MaxBatch..], reply, i);
    sent := sent + [images[i * MaxBatch..]];
    assert sent == batches;
    if e.Some? {
      return Some(PurgeError(repository, e.value)), sent;
    }
    err := None;
  }

  /** One BatchDeleteImage request: the registry's answer to the k-th call. */
  method BatchPurge(repository: string, batch: seq<ImageId>, reply: nat -> Option<AwsError>, k: nat)
    returns (err: Option<AwsError>)
    ensures err == reply(k)
  {
    err := reply(k);
  }

  /**
    The meaning of PurgeOutcome: nothing is sent for no images; otherwise the
    submitted batches are a prefix of Batches, every batch but the last succeeded,
    and the error is present exactly when the last submitted batch failed.
  */
  lemma PurgeStopsAtFirstFailure(repository: string, images: seq<ImageId>, reply: nat -> Option<AwsError>)
    ensures var p := PurgeOutcome(repository, images, reply);
      && (|images| == 0 ==> p == Purge([], None))
      && |p.sent| <= |Batches(images)|
      && p.sent == Batches(images)[..|p.sent|]
      && (forall k :: 0 <= k < |p.sent| - 1 ==> reply(k).None?)
      && (p.err.None? <==> p.sent == Batches(images) && forall k :: 0 <= k < |p.sent| ==> reply(k).None?)
      && (p.err.Some? ==> |p.sent| > 0 && reply(|p.sent| - 1) == Some(p.err.value.cause)
                          && p.err.value.repository == repository)
  {
  }

  /** Whatever happens, the images submitted are a prefix of the input, in batches of at most 100. */
  lemma PurgeSubmitsPrefix(repository: string, images: seq<ImageId>, reply: nat -> Option<AwsError>)
    ensures var p := PurgeOutcome(repository, images, reply);
      && (forall b :: b in p.sent ==> |b| <= MaxBatch)
      && |Concat(p.sent)| <= |images|
      && Concat(p.sent) == images[..|Concat(p.sent)|]
      && (p.err.None? ==> Concat(p.sent) == images)
  {
    var p := PurgeOutcome(repository, images, reply);
    var batches := Batches(images);
    BatchesPartition(images);
    assert batches == p.sent + batches[|p.sent|..];
    ConcatAppend(p.sent, batches[|p.sent|..]);
  }
}
