/** The image-rotation state of the coffee image carousel: a window of image
    URLs filled by a batch of single fetches, refreshed one URL at a time
    (oldest out, newest in), a display index advanced modulo the window length,
    and the render selection between spinner, error panel and carousel.

    Every fetch result is an input (a `FetchOutcome`); every timer callback and
    promise continuation is one call of a method of `CoffeeImageCarousel`. */
module ImageCarousel {
  import opened JsValues

  /** Number of images requested when the carousel mounts. */
  const InitialBatchSize: nat := 5

  /** Message recorded when a single fetch fails without a message of its own. */
  const FetchFailedMessage := "Failed to fetch coffee image"

  /** Message recorded when no fetch of a batch produced a URL. */
  const NoImagesMessage := "Could not fetch any coffee images"

  /** What one GET against the random-image endpoint produced. */
  datatype FetchOutcome =
    | Received(file: string)    // the `file` field of the response body
    | Failed(message: string)   // the rejection's message, possibly empty

  // ---------------------------------------------------------------------------
  // Single fetches and the batch
  // ---------------------------------------------------------------------------

  /** The value a single fetch resolves to: the URL, or `null` after a failure. */
  function ImageOf(o: FetchOutcome): (r: Option<string>)
    ensures r.None? <==> o.Failed?
    ensures r.Some? ==> r.value == o.file
  {
    match o
    case Received(file) => Some(file)
    case Failed(_) => None
  }

  /** The array a batch of single fetches resolves to: one entry per request
      slot, in request order (not in completion order). */
  function BatchResults(outcomes: seq<FetchOutcome>): (r: seq<Option<string>>)
    ensures |r| == |outcomes|
    ensures forall i :: 0 <= i < |outcomes| ==> r[i] == ImageOf(outcomes[i])
  {
    seq(|outcomes|, i requires 0 <= i < |outcomes| => ImageOf(outcomes[i]))
  }

  /** The number of `null` entries of a batch's results. */
  function NullCount(results: seq<Option<string>>): nat
  {
    if results == [] then 0
    else (if results[0].None? then 1 else 0) + NullCount(results[1..])
  }

  /** The batch filter, which drops exactly the `null` entries (an empty URL is
      kept). The result holds exactly the URLs that were fetched, and there are
      as many of them as there were non-null results. */
  function KeepNonNull(results: seq<Option<string>>): (r: seq<string>)
    ensures |r| + NullCount(results) == |results|
    ensures forall u :: u in r <==> Some(u) in results
  {
    if results == [] then []
    else
      assert results == [results[0]] + results[1..];
      (if results[0].Some? then [results[0].value] else []) + KeepNonNull(results[1..])
  }

  /** The filter keeps request order: filtering a concatenation is the
      concatenation of the filtered parts. */
  lemma {:induction false} KeepNonNullAppend(a: seq<Option<string>>, b: seq<Option<string>>)
    ensures KeepNonNull(a + b) == KeepNonNull(a) + KeepNonNull(b)
  {
    if a == [] {
      assert a + b == b;
    } else {
      assert (a + b)[0] == a[0];
      assert (a + b)[1..] == a[1..] + b;
      KeepNonNullAppend(a[1..], b);
    }
  }

  /** When every fetch of a batch succeeds, every URL is kept, in request order. */
  lemma {:induction false} BatchAllReceived(outcomes: seq<FetchOutcome>)
    requires forall i :: 0 <= i < |outcomes| ==> outcomes[i].Received?
    ensures |KeepNonNull(BatchResults(outcomes))| == |outcomes|
    ensures forall i :: 0 <= i < |outcomes| ==> KeepNonNull(BatchResults(outcomes))[i] == outcomes[i].file
  {
    if outcomes != [] {
      var n := |outcomes|;
      var init := outcomes[..n - 1];
      assert BatchResults(outcomes) == BatchResults(init) + [Some(outcomes[n - 1].file)];
      BatchAllReceived(init);
      KeepNonNullAppend(BatchResults(init), [Some(outcomes[n - 1].file)]);
      assert KeepNonNull([Some(outcomes[n - 1].file)]) == [outcomes[n - 1].file];
    }
  }

  /** When every fetch of a batch fails, nothing is kept. */
  lemma {:induction false} BatchAllFailed(outcomes: seq<FetchOutcome>)
    requires forall i :: 0 <= i < |outcomes| ==> outcomes[i].Failed?
    ensures KeepNonNull(BatchResults(outcomes)) == []
  {
    if outcomes != [] {
      assert BatchResults(outcomes) == [None] + BatchResults(outcomes[1..]);
      BatchAllFailed(outcomes[1..]);
    }
  }

  /** The `error` cell after the single fetches of `outcomes` complete one
      after the other: every failure overwrites it with its message, a success
      leaves it alone, and nothing sets it back to `null`. */
  function ErrorAfter(error: Option<string>, outcomes: seq<FetchOutcome>): (r: Option<string>)
    ensures r.Some? <==> error.Some? || exists i :: 0 <= i < |outcomes| && outcomes[i].Failed?
    ensures (forall i :: 0 <= i < |outcomes| ==> outcomes[i].Received?) ==> r == error
    ensures r != error ==> Truthy(r)
    decreases |outcomes|
  {
    if outcomes == [] then error
    else
      var last := outcomes[|outcomes| - 1];
      var init := outcomes[..|outcomes| - 1];
      assert forall i :: 0 <= i < |init| ==> init[i] == outcomes[i];
      if last.Failed? then Some(OrElse(last.message, FetchFailedMessage))
      else ErrorAfter(error, init)
  }

  /** One more completed fetch: a failure overwrites the error with its
      message, a success leaves it alone. */
  lemma ErrorAfterStep(error: Option<string>, outcomes: seq<FetchOutcome>, o: FetchOutcome)
    ensures ErrorAfter(error, outcomes + [o]) ==
      if o.Failed? then Some(OrElse(o.message, FetchFailedMessage)) else ErrorAfter(error, outcomes)
  {
  }

  /** The error shown after a run of fetches is the message of the last one
      that failed: successes after it do not touch it. */
  lemma {:induction false} LastFailureWins(error: Option<string>, before: seq<FetchOutcome>, message: string, after: seq<FetchOutcome>)
    requires forall i :: 0 <= i < |after| ==> after[i].Received?
    ensures ErrorAfter(error, before + [Failed(message)] + after) == Some(OrElse(message, FetchFailedMessage))
    decreases |after|
  {
    if after == [] {
      ErrorAfterStep(error, before, Failed(message));
    } else {
      var init := after[..|after| - 1];
      LastFailureWins(error, before, message, init);
      assert before + [Failed(message)] + after == (before + [Failed(message)] + init) + [after[|after| - 1]];
      ErrorAfterStep(error, before + [Failed(message)] + init, after[|after| - 1]);
    }
  }

  // ---------------------------------------------------------------------------
  // Refresh and advance
  // ---------------------------------------------------------------------------

  /** The window after one refresh with `url`: the oldest URL is gone and `url`
      is the newest. A non-empty window keeps its length; an empty one becomes
      `[url]`. */
  function Rotated(prev: seq<string>, url: string): (r: seq<string>)
    ensures |r| == if prev == [] then 1 else |prev|
    ensures r[|r| - 1] == url
    ensures forall i :: 0 <= i < |r| - 1 ==> r[i] == prev[i + 1]
  {
    (if prev == [] then [] else prev[1..]) + [url]
  }

  /** The window after refreshes with each of `urls`, in order. */
  function RotatedAll(prev: seq<string>, urls: seq<string>): seq<string>
    decreases |urls|
  {
    if urls == [] then prev else RotatedAll(Rotated(prev, urls[0]), urls[1..])
  }

  /** The window is a FIFO of fixed length: after k successful refreshes of a
      non-empty window, it holds the last |window| URLs of the old window
      followed by the k new ones, in arrival order. */
  lemma {:induction false} WindowSlides(prev: seq<string>, urls: seq<string>)
    requires prev != []
    ensures RotatedAll(prev, urls) == (prev + urls)[|urls|..]
    decreases |urls|
  {
    if urls != [] {
      var next := prev[1..] + [urls[0]];
      assert Rotated(prev, urls[0]) == next;
      WindowSlides(next, urls[1..]);
      assert next + urls[1..] == (prev + urls)[1..];
    }
  }

  /** Refreshes keep a non-empty window's length; when there are at most as
      many as the window holds, the oldest URLs are gone, the rest moved to
      the front, and the new ones follow in arrival order. */
  lemma WindowKeepsLength(prev: seq<string>, urls: seq<string>)
    requires prev != []
    ensures |RotatedAll(prev, urls)| == |prev|
    ensures |urls| <= |prev| ==> RotatedAll(prev, urls) == prev[|urls|..] + urls
  {
    WindowSlides(prev, urls);
    if |urls| <= |prev| {
      assert (prev + urls)[|urls|..] == prev[|urls|..] + urls;
    }
  }

  /** An empty window refreshed with at least one URL holds only the newest. */
  lemma WindowFromEmpty(urls: seq<string>)
    requires urls != []
    ensures RotatedAll([], urls) == [urls[|urls| - 1]]
  {
    WindowSlides([urls[0]], urls[1..]);
    assert [urls[0]] + urls[1..] == urls;
  }

  /** The display index after one tick on a window of `len` URLs: the next
      slide, wrapping from the last to the first. */
  function NextIndex(i: nat, len: nat): (r: nat)
    requires len > 0
    ensures r < len
    ensures i + 1 < len ==> r == i + 1
    ensures i + 1 == len ==> r == 0
  {
    (i + 1) % len
  }

  /** The display index after `n` ticks on a window of `len` URLs. */
  function AdvanceTimes(i: nat, len: nat, n: nat): nat
    requires len > 0
    decreases n
  {
    if n == 0 then i else AdvanceTimes(NextIndex(i, len), len, n - 1)
  }

  /** Ticks compose: `a + b` ticks are `a` ticks followed by `b` ticks. */
  lemma {:induction false} AdvanceTimesAdd(i: nat, len: nat, a: nat, b: nat)
    requires len > 0
    ensures AdvanceTimes(i, len, a + b) == AdvanceTimes(AdvanceTimes(i, len, a), len, b)
    decreases a
  {
    if a > 0 {
      AdvanceTimesAdd(NextIndex(i, len), len, a - 1, b);
    }
  }

  /** Before the wrap, `k` ticks move an in-range index `k` slides on. */
  lemma {:induction false} AdvanceTimesBeforeWrap(i: nat, len: nat, k: nat)
    requires i + k < len
    ensures AdvanceTimes(i, len, k) == i + k
    decreases k
  {
    if k > 0 {
      AdvanceTimesBeforeWrap(i + 1, len, k - 1);
    }
  }

  /** The rotation is cyclic: `len` ticks bring any in-range index back to
      where it started. */
  lemma AdvanceCycle(i: nat, len: nat)
    requires i < len
    ensures AdvanceTimes(i, len, len) == i
  {
    var toLast := len - 1 - i;
    AdvanceTimesBeforeWrap(i, len, toLast);
    assert AdvanceTimes(len - 1, len, 1) == 0;
    AdvanceTimesAdd(i, len, toLast, 1);
    AdvanceTimesBeforeWrap(0, len, i);
    AdvanceTimesAdd(i, len, toLast + 1, i);
  }

  // ---------------------------------------------------------------------------
  // Rendering
  // ---------------------------------------------------------------------------

  /** One carousel item: its image and whether it is the active one. */
  datatype Slide = Slide(url: string, active: bool)

  /** What the component renders. `indicators[i]` tells whether the i-th
      indicator button is marked active. */
  datatype CarouselView =
    | Spinner
    | ErrorPanel(message: string)
    | Gallery(indicators: seq<bool>, slides: seq<Slide>)

  /** The render selection: the spinner while loading; otherwise the error
      panel when an error is recorded; otherwise one indicator and one slide
      per URL, in window order, marked active exactly at `activeIndex`. */
  function Render(loading: bool, error: Option<string>, images: seq<string>, activeIndex: nat): (v: CarouselView)
    ensures v.Spinner? <==> loading
    ensures v.ErrorPanel? <==> !loading && Truthy(error)
    ensures v.ErrorPanel? ==> v.message == error.value
    ensures v.Gallery? ==> |v.slides| == |images| && |v.indicators| == |images|
    ensures v.Gallery? ==> forall i :: 0 <= i < |images| ==>
      v.slides[i].url == images[i] && (v.slides[i].active <==> i == activeIndex) && (v.indicators[i] <==> i == activeIndex)
  {
    if loading then Spinner
    else if Truthy(error) then ErrorPanel(error.value)
    else Gallery(seq(|images|, i requires 0 <= i < |images| => i == activeIndex),
                 seq(|images|, i requires 0 <= i < |images| => Slide(images[i], i == activeIndex)))
  }

  /** The positions of the slides marked active. */
  function ActiveSlides(slides: seq<Slide>): set<nat>
  {
    set i: nat | i < |slides| && slides[i].active
  }

  /** The positions of the indicators marked active. */
  function ActiveIndicators(indicators: seq<bool>): set<nat>
  {
    set i: nat | i < |indicators| && indicators[i]
  }

  /** In the carousel, exactly one slide and exactly one indicator are active,
      both at the display index, when that index is inside the window; when
      it is not, none is. */
  lemma ExactlyOneActive(loading: bool, error: Option<string>, images: seq<string>, activeIndex: nat)
    requires Render(loading, error, images, activeIndex).Gallery?
    ensures var v := Render(loading, error, images, activeIndex);
      ActiveSlides(v.slides) == ActiveIndicators(v.indicators) ==
        if activeIndex < |images| then {activeIndex} else {}
  {
  }

  // ---------------------------------------------------------------------------
  // The component's state
  // ---------------------------------------------------------------------------

  /** The carousel component: its four state cells and the callbacks that
      update them. */
  class CoffeeImageCarousel {
    var coffeeImages: seq<string>
    var loading: bool
    var error: Option<string>
    var activeIndex: nat

    /** Whether the initial batch has completed. The mount effect issues the
        batch once, so it completes at most once. */
    ghost var batchDone: bool

    /** The component's invariant:
        - a recorded error is never the empty string, so the error panel
          shows exactly when an error is recorded;
        - until the batch completes, loading is on and the window holds at
          most the URL of one early refresh, with the display index at 0;
        - once loading is over without an error, the window holds a URL;
        - the display index is 0 while the window is empty, and points into
          the window whenever it holds a URL. */
    ghost predicate Valid()
      reads this
    {
      (error.Some? ==> error.value != "") &&
      (!batchDone ==> loading && |coffeeImages| <= 1 && activeIndex == 0) &&
      (!loading && error.None? ==> coffeeImages != []) &&
      (coffeeImages == [] ==> activeIndex == 0) &&
      (coffeeImages != [] ==> IndexInRange())
    }

    /** The display index points into the window. */
    predicate IndexInRange()
      reads this
    {
      activeIndex < |coffeeImages|
    }

    /** The state on mount: loading, no images, no error, first slide. */
    constructor ()
      ensures Valid()
      ensures coffeeImages == [] && loading && error == None && activeIndex == 0
      ensures !batchDone
    {
      coffeeImages := [];
      loading := true;
      error := None;
      activeIndex := 0;
      batchDone := false;
    }

    /** What the component renders in the current state. Because a recorded
        error is never empty, the error panel shows exactly when loading is
        over and some error is recorded; and whenever the carousel shows,
        exactly one slide and exactly one indicator are active, both at the
        display index. */
    function View(): (v: CarouselView)
      reads this
      requires Valid()
      ensures v.ErrorPanel? <==> !loading && error.Some?
      ensures v.Gallery? <==> !loading && error.None?
      ensures v.Gallery? ==> ActiveSlides(v.slides) == {activeIndex} && ActiveIndicators(v.indicators) == {activeIndex}
    {
      var v := Render(loading, error, coffeeImages, activeIndex);
      if v.Gallery? then
        ExactlyOneActive(loading, error, coffeeImages, activeIndex);
        v
      else v
    }

    /** One fetch of a random image: resolves to the URL, or to `null` after
        recording the failure's message (or the default) as the error. */
    method FetchRandomCoffeeImage(outcome: FetchOutcome) returns (url: Option<string>)
      requires Valid()
      modifies this`error
      ensures Valid()
      ensures url == ImageOf(outcome)
      ensures error == ErrorAfter(old(error), [outcome])
      ensures outcome.Failed? ==> error == Some(OrElse(outcome.message, FetchFailedMessage))
      ensures old(error).Some? ==> error.Some?
    {
      match outcome {
        case Received(file) =>
          url := Some(file);
        case Failed(message) =>
          error := Some(OrElse(message, FetchFailedMessage));
          url := None;
      }
    }

    /** The initial batch: `count` single fetches (the i-th resolving as
        `responses[i]`), then the non-null URLs, in request order, replace the
        window; if there are none the window is left alone and the batch's own
        error is recorded. Loading is over either way; the display index is
        not touched. */
    method FetchMultipleCoffeeImages(count: nat, responses: seq<FetchOutcome>)
      requires Valid()
      requires !batchDone
      requires |responses| == count
      modifies this`coffeeImages, this`loading, this`error, this`batchDone
      ensures Valid()
      ensures batchDone
      ensures !loading
      ensures var kept := KeepNonNull(BatchResults(responses));
        if kept != [] then
          coffeeImages == kept && error == ErrorAfter(old(error), responses)
        else
          coffeeImages == old(coffeeImages) && error == Some(NoImagesMessage)
      ensures old(error).Some? ==> error.Some?
      ensures activeIndex == 0
    {
      loading := true;
      var imageUrls: seq<Option<string>> := [];
      var i := 0;
      while i < count
        invariant 0 <= i <= count
        invariant |imageUrls| == i
        invariant forall k :: 0 <= k < i ==> imageUrls[k] == ImageOf(responses[k])
        invariant error == ErrorAfter(old(error), responses[..i])
        invariant coffeeImages == old(coffeeImages) && loading && !batchDone
        invariant Valid()
      {
        var url := FetchRandomCoffeeImage(responses[i]);
        assert responses[..i + 1] == responses[..i] + [responses[i]];
        ErrorAfterStep(old(error), responses[..i], responses[i]);
        imageUrls := imageUrls + [url];
        i := i + 1;
      }
      assert responses[..count] == responses;
      assert imageUrls == BatchResults(responses);
      var validImageUrls := KeepNonNull(imageUrls);
      batchDone := true;
      if |validImageUrls| > 0 {
        coffeeImages := validImageUrls;
        loading := false;
      } else {
        error := Some(NoImagesMessage);
        loading := false;
      }
    }

    /** The refresh timer's callback: one fetch; a truthy URL replaces the
        oldest image (the updater copies the window, shifts its first element
        off and pushes the URL); a `null` or empty URL leaves the window as it
        was. A failed fetch records its error like any other. */
    method RefreshImage(outcome: FetchOutcome)
      requires Valid()
      modifies this`coffeeImages, this`error
      ensures Valid()
      ensures error == ErrorAfter(old(error), [outcome])
      ensures outcome.Received? ==> error == old(error)
      ensures old(error).Some? ==> error.Some?
      ensures Truthy(ImageOf(outcome)) ==> coffeeImages == Rotated(old(coffeeImages), outcome.file)
      ensures !Truthy(ImageOf(outcome)) ==> coffeeImages == old(coffeeImages)
    {
      var imageUrl := FetchRandomCoffeeImage(outcome);
      if Truthy(imageUrl) {
        var newImages := coffeeImages;
        if newImages != [] {
          newImages := newImages[1..];           // shift()
        }
        newImages := newImages + [imageUrl.value]; // push()
        coffeeImages := newImages;
      }
    }

    /** The slide timer's callback: it runs only while the window holds a
        URL, and moves the display index to the next slide, wrapping to the
        first. */
    method AdvanceSlide()
      requires Valid()
      modifies this`activeIndex
      ensures Valid()
      ensures coffeeImages == [] ==> activeIndex == old(activeIndex)
      ensures coffeeImages != [] ==> activeIndex == NextIndex(old(activeIndex), |coffeeImages|)
    {
      if |coffeeImages| == 0 {
        return;
      }
      activeIndex := (activeIndex + 1) % |coffeeImages|;
    }
  }

  /** The batch of a mount that loses its second and fourth fetches. */
  const PartialBatch := [Received("a"), Failed("timeout"), Received("b"), Failed(""), Received("c")]

  /** That batch keeps the three URLs it received, in request order. */
  lemma PartialBatchKept()
    ensures KeepNonNull(BatchResults(PartialBatch)) == ["a", "b", "c"]
  {
    var results := BatchResults(PartialBatch);
    assert results == [Some("a"), None] + [Some("b"), None, Some("c")];
    KeepNonNullAppend([Some("a"), None], [Some("b"), None, Some("c")]);
    assert [Some("b"), None, Some("c")] == [Some("b")] + [None, Some("c")];
    KeepNonNullAppend([Some("b")], [None, Some("c")]);
  }

  /** A mount whose batch loses two of its five fetches: three URLs are kept,
      yet the failures' error wins over the carousel. */
  method PartialBatchOnMount()
  {
    PartialBatchKept();
    var c := new CoffeeImageCarousel();
    c.FetchMultipleCoffeeImages(InitialBatchSize, PartialBatch);
    assert c.coffeeImages == ["a", "b", "c"];
    assert c.View().ErrorPanel?;
  }

  /** The batch of a mount whose five fetches all succeed. */
  const FullBatch := [Received("a"), Received("b"), Received("c"), Received("d"), Received("e")]

  /** That batch keeps all five URLs, in request order, and records no error. */
  lemma FullBatchKept()
    ensures KeepNonNull(BatchResults(FullBatch)) == ["a", "b", "c", "d", "e"]
    ensures ErrorAfter(None, FullBatch) == None
  {
    BatchAllReceived(FullBatch);
  }

  /** A mount whose five fetches all succeed, followed by a refresh with f:
      the window [a, b, c, d, e] becomes [b, c, d, e, f], and the carousel
      shows with its first slide active (by the contract of `View`). */
  method RefreshFullWindow()
  {
    FullBatchKept();
    var c := new CoffeeImageCarousel();
    c.FetchMultipleCoffeeImages(InitialBatchSize, FullBatch);
    assert c.coffeeImages == ["a", "b", "c", "d", "e"];
    c.RefreshImage(Received("f"));
    assert c.coffeeImages == ["b", "c", "d", "e", "f"];
    assert c.activeIndex == 0 && c.View().Gallery?;
  }

  /** A mount whose five fetches all succeed, followed by a refresh whose
      fetch fails: the window is kept, but the failure's error replaces the
      carousel with the error panel, and a later successful refresh does not
      bring it back. */
  method FailedRefreshAfterMount()
  {
    FullBatchKept();
    var c := new CoffeeImageCarousel();
    c.FetchMultipleCoffeeImages(InitialBatchSize, FullBatch);
    assert c.View().Gallery?;
    c.RefreshImage(Failed("timeout"));
    assert c.coffeeImages == ["a", "b", "c", "d", "e"];
    assert c.View() == ErrorPanel("timeout");
    c.RefreshImage(Received("f"));
    assert c.View() == ErrorPanel("timeout");
  }
}
