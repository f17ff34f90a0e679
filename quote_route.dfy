/** The `GET` handler of the quote route: read the query parameters, aggregate
    the catalog, and shape one of six responses according to `type`.

    The random source is a sequence `draws`: the k-th call of `getRandomItems`
    in a request shuffles with `draws[k]` (an empty sequence once `draws` has
    run out). The `default` type makes calls 2i (quotes) and 2i+1 (images) in
    round i; `quote` and `image` make call 0; `both` makes call 0 on the quote
    pool and call 1 on the image pool. */
module QuoteRoute {
  import opened Catalog
  import opened Sampling

  /** The query parameters. `kind` keeps the raw `type` string: `None` when
      the parameter is absent, `Some("")` when it is empty. The counts are
      already parsed as integers; for them `None` stands for a parameter that
      is absent or empty, which the route replaces by its default. */
  datatype Query = Query(
    kind: Option<string>,
    count: Option<int>,
    quoteCount: Option<int>,
    imageCount: Option<int>)

  /** One entry of the `default` response; `person` is absent when both pools are empty. */
  datatype Pair = Pair(quote: string, image: string, person: Option<PersonData>)

  datatype Response =
    | Pairs(pairs: seq<Pair>)
    | QuoteList(quotes: seq<QuoteItem>)
    | ImageList(images: seq<ImageItem>)
    | QuotesAndImages(quotes: seq<QuoteItem>, images: seq<ImageItem>)
    | PersonList(persons: seq<PersonData>)
    | BadRequest(status: int, error: string)

  const NoQuotes := "No quotes available"
  const NoImages := "No images available"
  const InvalidRequest := "Invalid type or request"

  /** The `type` parameter, `default` when it is absent or empty. */
  function RequestType(q: Query): (t: string)
    ensures t != ""
    ensures t == "default" <==> q.kind == None || q.kind == Some("") || q.kind == Some("default")
  {
    match q.kind
    case None => "default"
    case Some(t) => if t == "" then "default" else t
  }

  /** The `count` parameter, 1 when it is absent or empty. */
  function Count(q: Query): int {
    match q.count
    case None => 1
    case Some(n) => n
  }

  /** The `quoteCount` parameter, `count` when it is absent or empty. */
  function QuoteCount(q: Query): int {
    match q.quoteCount
    case None => Count(q)
    case Some(n) => n
  }

  /** The `imageCount` parameter, `count` when it is absent or empty. */
  function ImageCount(q: Query): int {
    match q.imageCount
    case None => Count(q)
    case Some(n) => n
  }

  /** The choices of the k-th call of the sampler. */
  function Draw(draws: seq<seq<nat>>, k: nat): seq<nat> {
    if k < |draws| then draws[k] else []
  }

  /** One `default` entry, built from a one-item (or empty) sample of each pool. */
  function PairOf(quoteSample: seq<QuoteItem>, imageSample: seq<ImageItem>): Pair {
    Pair(
      if quoteSample != [] then quoteSample[0].quote else NoQuotes,
      if imageSample != [] then imageSample[0].image else NoImages,
      if quoteSample != [] then Some(quoteSample[0].person)
      else if imageSample != [] then Some(imageSample[0].person)
      else None)
  }

  /** The last `rounds` rounds of the `default` loop, starting at call number
      `call`; each round reshuffles both pools, which stay shuffled for the next. */
  function DefaultPairs(quotes: seq<QuoteItem>, images: seq<ImageItem>, rounds: nat,
                        draws: seq<seq<nat>>, call: nat): seq<Pair>
    decreases rounds
  {
    if rounds == 0 then []
    else
      var quoteDraw, imageDraw := Draw(draws, call), Draw(draws, call + 1);
      [PairOf(Sample(quotes, 1, quoteDraw), Sample(images, 1, imageDraw))] +
      DefaultPairs(Shuffled(quotes, quoteDraw), Shuffled(images, imageDraw), rounds - 1, draws, call + 2)
  }

  /** A pool after `rounds` more rounds of the `default` loop, starting at call
      number `call`: each round shuffles it once, with the choices of that call,
      and the next round's call for the same pool comes two calls later. */
  function Reshuffled<T>(pool: seq<T>, rounds: nat, draws: seq<seq<nat>>, call: nat): seq<T>
    decreases rounds
  {
    if rounds == 0 then pool
    else Reshuffled(Shuffled(pool, Draw(draws, call)), rounds - 1, draws, call + 2)
  }

  /** However many rounds run, a pool only changes order: it keeps its length
      and every item with its multiplicity. */
  lemma {:induction false} ReshuffledIsPermutation<T>(pool: seq<T>, rounds: nat, draws: seq<seq<nat>>, call: nat)
    ensures |Reshuffled(pool, rounds, draws, call)| == |pool|
    ensures multiset(Reshuffled(pool, rounds, draws, call)) == multiset(pool)
    decreases rounds
  {
    if rounds > 0 {
      ShuffledIsPermutation(pool, Draw(draws, call));
      ReshuffledIsPermutation(Shuffled(pool, Draw(draws, call)), rounds - 1, draws, call + 2);
    }
  }

  const ValidTypes := {"default", "quote", "image", "both", "persons"}

  /** The response of the route for a query over a catalog. */
  function Dispatch(q: Query, folders: seq<PersonFolder>, draws: seq<seq<nat>>): (r: Response)
    ensures r.BadRequest? <==> RequestType(q) !in ValidTypes
    ensures r.BadRequest? ==> r == BadRequest(400, InvalidRequest)
  {
    var quotes, images := QuotePool(folders), ImagePool(folders);
    var t := RequestType(q);
    if t == "default" then
      Pairs(DefaultPairs(quotes, images, if Count(q) < 0 then 0 else Count(q), draws, 0))
    else if t == "quote" then
      QuoteList(Sample(quotes, Count(q), Draw(draws, 0)))
    else if t == "image" then
      ImageList(Sample(images, Count(q), Draw(draws, 0)))
    else if t == "both" then
      QuotesAndImages(Sample(quotes, QuoteCount(q), Draw(draws, 0)), Sample(images, ImageCount(q), Draw(draws, 1)))
    else if t == "persons" then
      PersonList(Persons(folders))
    else
      BadRequest(400, InvalidRequest)
  }

  /** A `default` entry drawn from the pools: its quote, with the quote's person,
      comes from the quote pool, or is the placeholder when that pool is empty;
      its image comes from the image pool, or is the placeholder; with no quotes
      the person is the image's, and with neither there is none. */
  ghost predicate DrawnFrom(p: Pair, quotes: seq<QuoteItem>, images: seq<ImageItem>) {
    (quotes == [] ==> p.quote == NoQuotes) &&
    (quotes != [] ==> p.person.Some? && QuoteItem(p.quote, p.person.value) in quotes) &&
    (images == [] ==> p.image == NoImages) &&
    (images != [] ==> p.image in ImagePaths(images)) &&
    (quotes == [] && images != [] ==> p.person.Some? && ImageItem(p.image, p.person.value) in images) &&
    (quotes == [] && images == [] ==> p.person == None)
  }

  /** The paths of the entries of an image pool. */
  ghost function ImagePaths(images: seq<ImageItem>): set<string> {
    set item | item in images :: item.image
  }

  /** Being drawn from a pool only depends on which items the pool holds. */
  lemma DrawnFromRearranged(p: Pair, quotes: seq<QuoteItem>, images: seq<ImageItem>,
                            quotes': seq<QuoteItem>, images': seq<ImageItem>)
    requires multiset(quotes') == multiset(quotes) && multiset(images') == multiset(images)
    requires DrawnFrom(p, quotes', images')
    ensures DrawnFrom(p, quotes, images)
  {
    assert forall item :: item in quotes' <==> item in quotes by {
      forall item ensures item in quotes' <==> item in quotes {
        assert item in quotes' <==> item in multiset(quotes');
        assert item in quotes <==> item in multiset(quotes);
      }
    }
    assert forall item :: item in images' <==> item in images by {
      forall item ensures item in images' <==> item in images {
        assert item in images' <==> item in multiset(images');
        assert item in images <==> item in multiset(images);
      }
    }
    assert |quotes'| == |quotes| && |images'| == |images| by {
      assert |multiset(quotes')| == |multiset(quotes)|;
      assert |multiset(images')| == |multiset(images)|;
    }
  }

  /** One round of the `default` loop yields an entry drawn from the pools. */
  lemma PairOfSamples(quotes: seq<QuoteItem>, images: seq<ImageItem>, quoteDraw: seq<nat>, imageDraw: seq<nat>)
    ensures DrawnFrom(PairOf(Sample(quotes, 1, quoteDraw), Sample(images, 1, imageDraw)), quotes, images)
  {
    var qs, ims := Sample(quotes, 1, quoteDraw), Sample(images, 1, imageDraw);
    SampleOfCount(quotes, 1, quoteDraw);
    SampleOfCount(images, 1, imageDraw);
    if qs != [] {
      assert qs[0] in multiset(quotes) by { assert qs[0] in multiset(qs); }
    }
    if ims != [] {
      assert ims[0] in multiset(images) by { assert ims[0] in multiset(ims); }
    }
  }

  /** The `default` loop yields one entry per round. */
  lemma {:induction false} DefaultPairsLength(quotes: seq<QuoteItem>, images: seq<ImageItem>, rounds: nat,
                                              draws: seq<seq<nat>>, call: nat)
    ensures |DefaultPairs(quotes, images, rounds, draws, call)| == rounds
    decreases rounds
  {
    if rounds > 0 {
      var quoteDraw, imageDraw := Draw(draws, call), Draw(draws, call + 1);
      DefaultPairsLength(Shuffled(quotes, quoteDraw), Shuffled(images, imageDraw), rounds - 1, draws, call + 2);
      DefaultPairsStep(quotes, images, rounds, draws, call);
    }
  }

  /** The first entry of the `default` loop is the pair of the first round. */
  lemma DefaultPairsFirst(quotes: seq<QuoteItem>, images: seq<ImageItem>, rounds: nat,
                          draws: seq<seq<nat>>, call: nat)
    requires 0 < rounds
    ensures 0 < |DefaultPairs(quotes, images, rounds, draws, call)|
    ensures DefaultPairs(quotes, images, rounds, draws, call)[0]
         == PairOf(Sample(quotes, 1, Draw(draws, call)), Sample(images, 1, Draw(draws, call + 1)))
  {
    DefaultPairsStep(quotes, images, rounds, draws, call);
  }

  /** Entry j > 0 of the `default` loop is entry j - 1 of the rounds that follow
      the first, run on the pools the first round reshuffled. */
  lemma DefaultPairsLater(quotes: seq<QuoteItem>, images: seq<ImageItem>, rounds: nat,
                          draws: seq<seq<nat>>, call: nat, j: nat)
    requires 0 < j < rounds
    ensures j < |DefaultPairs(quotes, images, rounds, draws, call)|
    ensures j - 1 < |DefaultPairs(Shuffled(quotes, Draw(draws, call)), Shuffled(images, Draw(draws, call + 1)), rounds - 1, draws, call + 2)|
    ensures DefaultPairs(quotes, images, rounds, draws, call)[j]
         == DefaultPairs(Shuffled(quotes, Draw(draws, call)), Shuffled(images, Draw(draws, call + 1)), rounds - 1, draws, call + 2)[j - 1]
  {
    DefaultPairsLength(quotes, images, rounds, draws, call);
    DefaultPairsLength(Shuffled(quotes, Draw(draws, call)), Shuffled(images, Draw(draws, call + 1)), rounds - 1, draws, call + 2);
    DefaultPairsStep(quotes, images, rounds, draws, call);
  }

  /** Every entry of the `default` loop is drawn from the pools it started with,
      however often they have been reshuffled before that round: entry j of
      the rounds run on rearrangements of `quotes0` and `images0` is drawn from
      `quotes0` and `images0`. */
  lemma {:induction false} DefaultPairDrawn(quotes: seq<QuoteItem>, images: seq<ImageItem>, rounds: nat,
                                            draws: seq<seq<nat>>, call: nat, j: nat,
                                            quotes0: seq<QuoteItem>, images0: seq<ImageItem>)
    requires j < rounds
    requires multiset(quotes) == multiset(quotes0) && multiset(images) == multiset(images0)
    ensures j < |DefaultPairs(quotes, images, rounds, draws, call)|
    ensures DrawnFrom(DefaultPairs(quotes, images, rounds, draws, call)[j], quotes0, images0)
    decreases j
  {
    var quoteDraw, imageDraw := Draw(draws, call), Draw(draws, call + 1);
    if j == 0 {
      DefaultPairsFirst(quotes, images, rounds, draws, call);
      PairOfSamples(quotes, images, quoteDraw, imageDraw);
      DrawnFromRearranged(PairOf(Sample(quotes, 1, quoteDraw), Sample(images, 1, imageDraw)), quotes0, images0, quotes, images);
    } else {
      DefaultPairsLater(quotes, images, rounds, draws, call, j);
      ShuffledIsPermutation(quotes, quoteDraw);
      ShuffledIsPermutation(images, imageDraw);
      DefaultPairDrawn(Shuffled(quotes, quoteDraw), Shuffled(images, imageDraw), rounds - 1, draws, call + 2, j - 1, quotes0, images0);
    }
  }

  /** Leaving a parameter out, or sending it empty, gives the same response as
      sending its default: `type=default`, `count=1`, and `quoteCount` and
      `imageCount` equal to `count`. */
  lemma OmittedParametersTakeDefaults(q: Query, folders: seq<PersonFolder>, draws: seq<seq<nat>>)
    ensures Dispatch(q.(kind := None), folders, draws) == Dispatch(q.(kind := Some("default")), folders, draws)
    ensures Dispatch(q.(kind := Some("")), folders, draws) == Dispatch(q.(kind := Some("default")), folders, draws)
    ensures Dispatch(q.(count := None), folders, draws) == Dispatch(q.(count := Some(1)), folders, draws)
    ensures Dispatch(q.(quoteCount := None), folders, draws) == Dispatch(q.(quoteCount := Some(Count(q))), folders, draws)
    ensures Dispatch(q.(imageCount := None), folders, draws) == Dispatch(q.(imageCount := Some(Count(q))), folders, draws)
  {
  }

  /** `type=default` (also an absent or empty type): exactly `count` entries
      (none for a negative count), each drawn from the pools of the catalog. */
  lemma DefaultResponse(q: Query, folders: seq<PersonFolder>, draws: seq<seq<nat>>)
    requires RequestType(q) == "default"
    ensures Dispatch(q, folders, draws).Pairs?
    ensures |Dispatch(q, folders, draws).pairs| == if Count(q) < 0 then 0 else Count(q)
    ensures forall p :: p in Dispatch(q, folders, draws).pairs ==> DrawnFrom(p, QuotePool(folders), ImagePool(folders))
  {
    var rounds := if Count(q) < 0 then 0 else Count(q);
    var pairs := DefaultPairs(QuotePool(folders), ImagePool(folders), rounds, draws, 0);
    DefaultPairsLength(QuotePool(folders), ImagePool(folders), rounds, draws, 0);
    forall p | p in pairs ensures DrawnFrom(p, QuotePool(folders), ImagePool(folders)) {
      var j :| 0 <= j < |pairs| && pairs[j] == p;
      DefaultPairDrawn(QuotePool(folders), ImagePool(folders), rounds, draws, 0, j, QuotePool(folders), ImagePool(folders));
    }
  }

  /** `type=quote`: quotes of the pool, none repeated beyond its multiplicity
      there; min(count, pool size) of them for count >= 0, and all but the last
      -count of the shuffled pool for a negative count. */
  lemma QuoteResponse(q: Query, folders: seq<PersonFolder>, draws: seq<seq<nat>>)
    requires RequestType(q) == "quote"
    ensures Dispatch(q, folders, draws).QuoteList?
    ensures multiset(Dispatch(q, folders, draws).quotes) <= multiset(QuotePool(folders))
    ensures 0 <= Count(q) ==> |Dispatch(q, folders, draws).quotes| == Min(Count(q), |QuotePool(folders)|)
    ensures Count(q) < 0 ==> |Dispatch(q, folders, draws).quotes| == Max(|QuotePool(folders)| + Count(q), 0)
  {
    assert Dispatch(q, folders, draws) == QuoteList(Sample(QuotePool(folders), Count(q), Draw(draws, 0)));
    SampleIsPrefix(QuotePool(folders), Count(q), Draw(draws, 0));
  }

  /** `type=image`: the same for the image pool. */
  lemma ImageResponse(q: Query, folders: seq<PersonFolder>, draws: seq<seq<nat>>)
    requires RequestType(q) == "image"
    ensures Dispatch(q, folders, draws).ImageList?
    ensures multiset(Dispatch(q, folders, draws).images) <= multiset(ImagePool(folders))
    ensures 0 <= Count(q) ==> |Dispatch(q, folders, draws).images| == Min(Count(q), |ImagePool(folders)|)
    ensures Count(q) < 0 ==> |Dispatch(q, folders, draws).images| == Max(|ImagePool(folders)| + Count(q), 0)
  {
    assert Dispatch(q, folders, draws) == ImageList(Sample(ImagePool(folders), Count(q), Draw(draws, 0)));
    SampleIsPrefix(ImagePool(folders), Count(q), Draw(draws, 0));
  }

  /** `type=both`: independent samples of the two pools, sized by `quoteCount`
      and `imageCount`, each of which falls back to `count`. */
  lemma BothResponse(q: Query, folders: seq<PersonFolder>, draws: seq<seq<nat>>)
    requires RequestType(q) == "both"
    ensures Dispatch(q, folders, draws).QuotesAndImages?
    ensures multiset(Dispatch(q, folders, draws).quotes) <= multiset(QuotePool(folders))
    ensures multiset(Dispatch(q, folders, draws).images) <= multiset(ImagePool(folders))
    ensures 0 <= QuoteCount(q) ==>
      |Dispatch(q, folders, draws).quotes| == Min(QuoteCount(q), |QuotePool(folders)|)
    ensures 0 <= ImageCount(q) ==>
      |Dispatch(q, folders, draws).images| == Min(ImageCount(q), |ImagePool(folders)|)
    ensures QuoteCount(q) < 0 ==>
      |Dispatch(q, folders, draws).quotes| == Max(|QuotePool(folders)| + QuoteCount(q), 0)
    ensures ImageCount(q) < 0 ==>
      |Dispatch(q, folders, draws).images| == Max(|ImagePool(folders)| + ImageCount(q), 0)
    ensures q.quoteCount == None ==> QuoteCount(q) == Count(q)
    ensures q.imageCount == None ==> ImageCount(q) == Count(q)
  {
    assert Dispatch(q, folders, draws) == QuotesAndImages(
      Sample(QuotePool(folders), QuoteCount(q), Draw(draws, 0)),
      Sample(ImagePool(folders), ImageCount(q), Draw(draws, 1)));
    SampleIsPrefix(QuotePool(folders), QuoteCount(q), Draw(draws, 0));
    SampleIsPrefix(ImagePool(folders), ImageCount(q), Draw(draws, 1));
  }

  /** `type=persons`: every folder's person, in folder order. */
  lemma PersonsResponse(q: Query, folders: seq<PersonFolder>, draws: seq<seq<nat>>)
    requires RequestType(q) == "persons"
    ensures Dispatch(q, folders, draws).PersonList?
    ensures |Dispatch(q, folders, draws).persons| == |folders|
    ensures forall i :: 0 <= i < |folders| ==> Dispatch(q, folders, draws).persons[i] == FilledIn(folders[i])
  {
    PersonsInFolderOrder(folders);
  }

  function Min(a: int, b: int): int {
    if a < b then a else b
  }

  function Max(a: int, b: int): int {
    if a < b then b else a
  }

  /** One round of the `default` loop, unfolded. */
  lemma DefaultPairsStep(quotes: seq<QuoteItem>, images: seq<ImageItem>, rounds: nat, draws: seq<seq<nat>>, call: nat)
    requires 0 < rounds
    ensures DefaultPairs(quotes, images, rounds, draws, call)
         == [PairOf(Sample(quotes, 1, Draw(draws, call)), Sample(images, 1, Draw(draws, call + 1)))] +
            DefaultPairs(Shuffled(quotes, Draw(draws, call)), Shuffled(images, Draw(draws, call + 1)), rounds - 1, draws, call + 2)
  {
  }

  /** One round of the `default` loop: draw one item from each pool with
      `getRandomItems(pool, 1)`, which leaves that pool reshuffled in place, and
      combine the two draws into an entry. */
  method DefaultRound(quoteArr: array<QuoteItem>, imageArr: array<ImageItem>, draws: seq<seq<nat>>, call: nat)
    returns (pair: Pair)
    modifies quoteArr, imageArr
    ensures pair == PairOf(Sample(old(quoteArr[..]), 1, Draw(draws, call)), Sample(old(imageArr[..]), 1, Draw(draws, call + 1)))
    ensures quoteArr[..] == Shuffled(old(quoteArr[..]), Draw(draws, call))
    ensures imageArr[..] == Shuffled(old(imageArr[..]), Draw(draws, call + 1))
  {
    ghost var imagesBefore := imageArr[..];
    var randomQuote := GetRandomItems(quoteArr, 1, Draw(draws, call));
    assert imageArr[..] == imagesBefore;
    ghost var quotesAfter := quoteArr[..];
    var randomImage := GetRandomItems(imageArr, 1, Draw(draws, call + 1));
    assert quoteArr[..] == quotesAfter;
    pair := PairOf(randomQuote, randomImage);
  }

  /** How one round of the `default` loop moves the loop's state on: the
      entries still to come lose their first, which is the round's pair, and
      each pool's remaining reshuffles lose their first, which the round made. */
  lemma NextRound(done: seq<Pair>, quotes: seq<QuoteItem>, images: seq<ImageItem>, left: nat,
                  draws: seq<seq<nat>>, call: nat,
                  pair: Pair, quotes': seq<QuoteItem>, images': seq<ImageItem>)
    requires 0 < left
    requires pair == PairOf(Sample(quotes, 1, Draw(draws, call)), Sample(images, 1, Draw(draws, call + 1)))
    requires quotes' == Shuffled(quotes, Draw(draws, call))
    requires images' == Shuffled(images, Draw(draws, call + 1))
    ensures done + DefaultPairs(quotes, images, left, draws, call)
         == (done + [pair]) + DefaultPairs(quotes', images', left - 1, draws, call + 2)
    ensures Reshuffled(quotes, left, draws, call) == Reshuffled(quotes', left - 1, draws, call + 2)
    ensures Reshuffled(images, left, draws, call + 1) == Reshuffled(images', left - 1, draws, call + 3)
  {
    DefaultPairsStep(quotes, images, left, draws, call);
    var later := DefaultPairs(quotes', images', left - 1, draws, call + 2);
    assert (done + [pair]) + later == done + ([pair] + later);
  }

  /** The `default` loop: `count` rounds, none for a negative count. Each pool
      ends up reshuffled once per round, and so stays a permutation of itself. */
  method DefaultRounds(quoteArr: array<QuoteItem>, imageArr: array<ImageItem>, count: int, draws: seq<seq<nat>>)
    returns (result: seq<Pair>)
    modifies quoteArr, imageArr
    ensures result == DefaultPairs(old(quoteArr[..]), old(imageArr[..]), if count < 0 then 0 else count, draws, 0)
    ensures quoteArr[..] == Reshuffled(old(quoteArr[..]), if count < 0 then 0 else count, draws, 0)
    ensures imageArr[..] == Reshuffled(old(imageArr[..]), if count < 0 then 0 else count, draws, 1)
    ensures multiset(quoteArr[..]) == multiset(old(quoteArr[..]))
    ensures multiset(imageArr[..]) == multiset(old(imageArr[..]))
  {
    result := [];
    var rounds := if count < 0 then 0 else count;
    ghost var pairs := DefaultPairs(quoteArr[..], imageArr[..], rounds, draws, 0);
    ghost var finalQuotes := Reshuffled(quoteArr[..], rounds, draws, 0);
    ghost var finalImages := Reshuffled(imageArr[..], rounds, draws, 1);
    var i := 0;
    var call := 0;  // calls of the sampler made so far
    ghost var left: nat := rounds;
    while i < count
      invariant 0 <= i <= rounds && left == rounds - i && call == 2 * i
      invariant result + DefaultPairs(quoteArr[..], imageArr[..], left, draws, call) == pairs
      invariant Reshuffled(quoteArr[..], left, draws, call) == finalQuotes
      invariant Reshuffled(imageArr[..], left, draws, call + 1) == finalImages
    {
      ghost var quotesBefore, imagesBefore := quoteArr[..], imageArr[..];
      var pair := DefaultRound(quoteArr, imageArr, draws, call);
      NextRound(result, quotesBefore, imagesBefore, left, draws, call, pair, quoteArr[..], imageArr[..]);
      result := result + [pair];
      i := i + 1;
      call := call + 2;
      left := left - 1;
    }
    assert DefaultPairs(quoteArr[..], imageArr[..], left, draws, call) == [];
    ReshuffledIsPermutation(old(quoteArr[..]), rounds, draws, 0);
    ReshuffledIsPermutation(old(imageArr[..]), rounds, draws, 1);
  }

  method Get(q: Query, folders: seq<PersonFolder>, draws: seq<seq<nat>>) returns (r: Response)
    ensures r == Dispatch(q, folders, draws)
  {
    var t := RequestType(q);
    var count := Count(q);
    var quoteCount := QuoteCount(q);
    var imageCount := ImageCount(q);

    var allPersons, quotes, images := Aggregate(folders);
    var quoteArr := new QuoteItem[|quotes|](k requires 0 <= k < |quotes| => quotes[k]);
    var imageArr := new ImageItem[|images|](k requires 0 <= k < |images| => images[k]);
    assert quoteArr[..] == quotes && imageArr[..] == images;

    if t == "default" {
      var result := DefaultRounds(quoteArr, imageArr, count, draws);
      return Pairs(result);
    }
    if t == "quote" {
      var items := GetRandomItems(quoteArr, count, Draw(draws, 0));
      return QuoteList(items);
    }
    if t == "image" {
      var items := GetRandomItems(imageArr, count, Draw(draws, 0));
      return ImageList(items);
    }
    if t == "both" {
      var quoteItems := GetRandomItems(quoteArr, quoteCount, Draw(draws, 0));
      var imageItems := GetRandomItems(imageArr, imageCount, Draw(draws, 1));
      return QuotesAndImages(quoteItems, imageItems);
    }
    if t == "persons" {
      return PersonList(allPersons);
    }
    return BadRequest(400, InvalidRequest);
  }
}
