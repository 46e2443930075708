/** The loading screen of js/loading.js: a counter of reported assets, the
    `assetsLoaded` and `layoutReady` flags and the progress value, driven by
    the DOM, GSAP, font and image callbacks, and the skip test for a page
    that is already loaded. */
module Loading {
  import opened Common

  /** GSAP, fonts and images; the DOM is reported too, as a fourth call. */
  const TOTAL_ASSETS: nat := 3

  const DOM_PROGRESS: real := 30.0
  const GSAP_PROGRESS: real := 60.0
  const FONTS_PROGRESS: real := 80.0
  const IMAGES_PROGRESS: real := 100.0

  /** An `<img>` as `checkIfAlreadyLoaded` and `initLoading` see it. */
  datatype Image = Image(complete: bool, naturalHeight: nat)

  predicate ImageReady(img: Image) {
    img.complete && img.naturalHeight != 0
  }

  /** `Array.from(images).every(...)` */
  function AllImagesReady(images: seq<Image>): (r: bool)
    ensures r <==> forall i :: 0 <= i < |images| ==> ImageReady(images[i])
  {
    if images == [] then true
    else ImageReady(images[0]) && AllImagesReady(images[1..])
  }

  /** What the page offers when the script starts: whether `gsap` and
      `THREE` are defined, the font check (`None` without the Font Loading
      API), whether the document is past `loading`, and its images. */
  datatype PageState = PageState(gsapDefined: bool, threeDefined: bool, fontsCheck: Option<bool>,
                                 domReady: bool, images: seq<Image>)

  /** `checkIfAlreadyLoaded`: all five conditions, the font one true without
      the API and the image one true without images. */
  function AlreadyLoaded(page: PageState): (r: bool)
    ensures r <==> page.gsapDefined && page.threeDefined && page.domReady
                   && (page.fontsCheck.Some? ==> page.fontsCheck.value)
                   && (forall i :: 0 <= i < |page.images| ==> ImageReady(page.images[i]))
    ensures |page.images| == 0 ==>
              (r <==> page.gsapDefined && page.threeDefined && page.domReady && (page.fontsCheck.Some? ==> page.fontsCheck.value))
  {
    var fontsLoaded := match page.fontsCheck case None => true case Some(b) => b;
    var imagesLoaded := if |page.images| > 0 then AllImagesReady(page.images) else true;
    page.gsapDefined && page.threeDefined && fontsLoaded && page.domReady && imagesLoaded
  }

  /** `30 + (loadedImages / totalImages) * 50` */
  function ImageProgress(loaded: nat, total: nat): (p: real)
    requires total > 0
    ensures 0 < loaded <= total ==> 30.0 < p <= 80.0
    ensures loaded == total ==> p == 80.0
    ensures loaded == 0 ==> p == 30.0
  {
    var f := loaded as real / total as real;
    FractionBounds(loaded, total);
    30.0 + f * 50.0
  }

  lemma FractionBounds(loaded: nat, total: nat)
    requires total > 0
    ensures 0 < loaded <= total ==> 0.0 < loaded as real / total as real <= 1.0
    ensures loaded == total ==> loaded as real / total as real == 1.0
  {
    var q := loaded as real / total as real;
    assert q * total as real == loaded as real;
    if 0 < loaded <= total {
      assert (1.0 - q) * total as real == (total - loaded) as real;
      ProductSign(1.0 - q, total as real);
      ProductSign(q, total as real);
      assert q != 0.0;
    }
  }

  /** Each further image moves the image progress strictly forward. */
  lemma ImageProgressIncreases(l1: nat, l2: nat, total: nat)
    requires total > 0 && l1 < l2
    ensures ImageProgress(l1, total) < ImageProgress(l2, total)
  {
    var d := total as real;
    var q1 := l1 as real / d;
    var q2 := l2 as real / d;
    assert q1 * d == l1 as real && q2 * d == l2 as real;
    assert (q2 - q1) * d == (l2 - l1) as real;
    ProductSign(q2 - q1, d);
    assert q2 != q1;
  }

  /** `criticalAssetsLoaded` in `checkAssetLoaded`. */
  predicate CriticalLoaded(loadedAssets: nat, totalAssets: nat, gsapDefined: bool, layoutReady: bool) {
    loadedAssets >= totalAssets || (gsapDefined && layoutReady)
  }

  /** The number of ready images among the first `n`: the ones the `forEach`
      counts at once. */
  function CountReady(images: seq<Image>, n: nat): (r: nat)
    requires n <= |images|
    ensures r <= n
  {
    if n == 0 then 0 else CountReady(images, n - 1) + (if ImageReady(images[n - 1]) then 1 else 0)
  }

  /** All of the first `n` images are counted exactly when all are ready. */
  lemma {:induction false} CountReadyAll(images: seq<Image>, n: nat)
    requires n <= |images|
    ensures CountReady(images, n) == n <==> forall i :: 0 <= i < n ==> ImageReady(images[i])
  {
    if n > 0 {
      CountReadyAll(images, n - 1);
    }
  }

  /** The indices below `n` of the images that are not ready yet: the ones
      that get a load/error handler. */
  function Unready(images: seq<Image>, n: nat): (r: set<nat>)
    requires n <= |images|
    ensures forall i :: i in r ==> i < n
  {
    if n == 0 then {} else Unready(images, n - 1) + (if ImageReady(images[n - 1]) then {} else {n - 1})
  }

  /** The images waited for are exactly the ones that are not ready. */
  lemma {:induction false} UnreadyMembers(images: seq<Image>, n: nat)
    requires n <= |images|
    ensures forall i :: 0 <= i < n ==> (i in Unready(images, n) <==> !ImageReady(images[i]))
  {
    if n > 0 {
      UnreadyMembers(images, n - 1);
    }
  }

  /** Every image up to `n` is either counted or waited for. */
  lemma {:induction false} UnreadyCount(images: seq<Image>, n: nat)
    requires n <= |images|
    ensures CountReady(images, n) + |Unready(images, n)| == n
  {
    if n > 0 {
      UnreadyCount(images, n - 1);
      var u := Unready(images, n - 1);
      assert n - 1 !in u;
      if ImageReady(images[n - 1]) {
        assert Unready(images, n) == u;
      } else {
        assert Unready(images, n) == u + {n - 1};
        assert |u + {n - 1}| == |u| + 1;
      }
    }
  }

  /** The progress once the DOM and GSAP parts of `initLoading` ran: the last
      immediate report sets it, and two critical reports (a ready DOM with
      GSAP defined) take it to 100. */
  function ArmedProgress(domReady: bool, gsapDefined: bool, before: real): real {
    if domReady && gsapDefined then 100.0
    else if gsapDefined then GSAP_PROGRESS
    else if domReady then DOM_PROGRESS
    else before
  }

  /** The progress once `initLoading` registered everything: the `images`
      report sets 100; otherwise the last image counted at once sets its
      image progress, even below a progress of 100 set before. */
  function StartedProgress(page: PageState, before: real): real {
    var ready := CountReady(page.images, |page.images|);
    if AllImagesReady(page.images) then IMAGES_PROGRESS
    else if ready > 0 then ImageProgress(ready, |page.images|)
    else ArmedProgress(page.domReady, page.gsapDefined, before)
  }

  /** The module-level state of loading.js and the loader element. */
  class Loader {
    const hasLoader: bool
    var assetsLoaded: bool
    var layoutReady: bool
    var loadingProgress: real
    var totalAssets: nat
    var loadedAssets: nat
    /** Delayed `hideLoader` calls queued by `checkReady`. */
    var hideRequests: nat
    /** The loader carries the `hidden` class. */
    var hidden: bool
    var loaderRemoved: bool
    var bodyLoaded: bool
    /** The callbacks still to come. */
    var domPending: bool
    var gsapIntervalActive: bool
    var gsapTimeoutPending: bool
    var fontsPending: bool
    /** Image bookkeeping of `initLoading`. */
    var imagesStarted: bool
    var totalImages: nat
    var loadedImages: nat
    var pendingImages: set<nat>
    var imagesReported: nat

    ghost predicate Valid()
      reads this
    {
      && 0.0 <= loadingProgress <= 100.0
      && (loadedAssets > 0 ==> totalAssets == TOTAL_ASSETS)
      && (loadedAssets > 0 && loadedAssets >= totalAssets ==> assetsLoaded)
      && (imagesStarted ==>
            && loadedImages + |pendingImages| == totalImages
            && imagesReported == (if loadedImages == totalImages then 1 else 0))
      && (!imagesStarted ==> loadedImages == 0 && pendingImages == {} && imagesReported == 0)
    }

    /** The effect of one `checkAssetLoaded(name, progress)` call on the
        flags and the progress, from the values before it. */
    ghost predicate Reported(wasLoaded: bool, hidesBefore: nat, progress: real, gsapDefined: bool)
      reads this
    {
      var critical := CriticalLoaded(loadedAssets, totalAssets, gsapDefined, layoutReady);
      && assetsLoaded == (wasLoaded || critical)
      && hideRequests == hidesBefore + (if critical && layoutReady then 1 else 0)
      && loadingProgress == (if critical && layoutReady then 100.0 else progress)
    }

    /** The DOM, GSAP and font parts of `initLoading` ran: three assets are
        expected, a ready DOM marked the layout ready and a loading one left
        its listener pending, and a missing GSAP left the poll and the 5 s
        fallback running; the fonts callback is always armed. */
    ghost predicate Armed(domReady: bool, gsapDefined: bool)
      reads this`totalAssets, this`layoutReady, this`domPending, this`gsapIntervalActive,
            this`gsapTimeoutPending, this`fontsPending
    {
      && totalAssets == TOTAL_ASSETS && fontsPending
      && layoutReady == domReady && domPending == !domReady
      && gsapIntervalActive == !gsapDefined && gsapTimeoutPending == !gsapDefined
    }

    constructor (loaderPresent: bool)
      ensures Valid() && hasLoader == loaderPresent
      ensures !assetsLoaded && !layoutReady && loadingProgress == 0.0
      ensures totalAssets == 0 && loadedAssets == 0 && hideRequests == 0
      ensures !hidden && !loaderRemoved && !bodyLoaded && !imagesStarted
    {
      hasLoader := loaderPresent;
      assetsLoaded, layoutReady := false, false;
      loadingProgress := 0.0;
      totalAssets, loadedAssets, hideRequests := 0, 0, 0;
      hidden, loaderRemoved, bodyLoaded := false, false, false;
      domPending, gsapIntervalActive, gsapTimeoutPending, fontsPending := false, false, false, false;
      imagesStarted := false;
      totalImages, loadedImages, imagesReported := 0, 0, 0;
      pendingImages := {};
    }

    /** `updateProgress`: the value is overwritten, not maxed. */
    method UpdateProgress(progress: real)
      requires 0.0 <= progress <= 100.0
      modifies this`loadingProgress
      ensures loadingProgress == progress
    {
      loadingProgress := progress;
    }

    /** `checkReady` */
    method CheckReady()
      requires Valid()
      modifies this`loadingProgress, this`hideRequests
      ensures Valid()
      ensures assetsLoaded && layoutReady ==> loadingProgress == 100.0 && hideRequests == old(hideRequests) + 1
      ensures !(assetsLoaded && layoutReady) ==> loadingProgress == old(loadingProgress) && hideRequests == old(hideRequests)
    {
      if assetsLoaded && layoutReady {
        UpdateProgress(100.0);
        hideRequests := hideRequests + 1;
      }
    }

    /** `checkAssetLoaded(name, progress)`, with `gsapDefined` the value of
        `typeof gsap !== 'undefined'` at the call. */
    method CheckAssetLoaded(progress: real, gsapDefined: bool)
      requires Valid() && totalAssets == TOTAL_ASSETS && 0.0 <= progress <= 100.0
      modifies this`loadedAssets, this`loadingProgress, this`assetsLoaded, this`hideRequests
      ensures Valid()
      ensures loadedAssets == old(loadedAssets) + 1
      ensures Reported(old(assetsLoaded), old(hideRequests), progress, gsapDefined)
    {
      loadedAssets := loadedAssets + 1;
      UpdateProgress(progress);
      var critical := loadedAssets >= totalAssets || (gsapDefined && layoutReady);
      if critical {
        assetsLoaded := true;
        CheckReady();
      }
    }

    /** `initLoading` up to the callbacks it registers.  Returns whether the
        loader was skipped because the page was already loaded. */
    method InitLoading(page: PageState) returns (skipped: bool)
      requires Valid() && loadedAssets == 0 && !imagesStarted && !layoutReady
      modifies this`loaderRemoved, this`bodyLoaded,
               this`totalAssets, this`layoutReady, this`domPending, this`loadedAssets, this`loadingProgress,
               this`assetsLoaded, this`hideRequests, this`gsapIntervalActive, this`gsapTimeoutPending, this`fontsPending,
               this`imagesStarted, this`totalImages, this`loadedImages, this`pendingImages, this`imagesReported
      ensures Valid()
      ensures skipped == AlreadyLoaded(page)
      ensures skipped ==> bodyLoaded && loaderRemoved == (old(loaderRemoved) || hasLoader)
                          && loadedAssets == 0 && totalAssets == old(totalAssets)
      ensures !skipped ==> Armed(page.domReady, page.gsapDefined) && imagesStarted
      ensures !skipped ==> loadedAssets == (if page.domReady then 1 else 0) + (if page.gsapDefined then 1 else 0) + imagesReported
      ensures !skipped ==> imagesReported == (if AllImagesReady(page.images) then 1 else 0)
      ensures !skipped ==> totalImages == |page.images| && loadedImages == CountReady(page.images, |page.images|)
                           && pendingImages == Unready(page.images, |page.images|)
      ensures !skipped ==> assetsLoaded == (old(assetsLoaded) || (page.domReady && page.gsapDefined))
      ensures !skipped ==>
                hideRequests == old(hideRequests) + (if page.domReady && page.gsapDefined then 2 + imagesReported else 0)
      ensures !skipped ==> loadingProgress == StartedProgress(page, old(loadingProgress))
      ensures skipped ==> hideRequests == old(hideRequests) && assetsLoaded == old(assetsLoaded)
      ensures hidden == old(hidden)
      ensures !skipped ==> loaderRemoved == old(loaderRemoved) && bodyLoaded == old(bodyLoaded)
      ensures skipped ==> loadingProgress == old(loadingProgress) && layoutReady == old(layoutReady)
                          && totalAssets == old(totalAssets) && loadedAssets == old(loadedAssets)
      ensures skipped ==> domPending == old(domPending) && fontsPending == old(fontsPending)
                          && gsapIntervalActive == old(gsapIntervalActive) && gsapTimeoutPending == old(gsapTimeoutPending)
      ensures skipped ==> !imagesStarted && totalImages == old(totalImages) && loadedImages == old(loadedImages)
                          && pendingImages == old(pendingImages) && imagesReported == old(imagesReported)
    {
      if AlreadyLoaded(page) {
        if hasLoader {
          loaderRemoved := true;
        }
        bodyLoaded := true;
        return true;
      }
      skipped := false;
      StartLoading(page);
    }

    /** `initLoading` past the skip test: three assets are expected, and the
        DOM, GSAP, font and image reports are made at once or armed. */
    method StartLoading(page: PageState)
      requires Valid() && loadedAssets == 0 && !imagesStarted && !layoutReady
      modifies this`totalAssets, this`layoutReady, this`domPending, this`loadedAssets, this`loadingProgress,
               this`assetsLoaded, this`hideRequests, this`gsapIntervalActive, this`gsapTimeoutPending, this`fontsPending,
               this`imagesStarted, this`totalImages, this`loadedImages, this`pendingImages, this`imagesReported
      ensures Valid() && Armed(page.domReady, page.gsapDefined) && imagesStarted
      ensures loadedAssets == (if page.domReady then 1 else 0) + (if page.gsapDefined then 1 else 0) + imagesReported
      ensures imagesReported == (if AllImagesReady(page.images) then 1 else 0)
      ensures totalImages == |page.images| && loadedImages == CountReady(page.images, |page.images|)
      ensures pendingImages == Unready(page.images, |page.images|)
      ensures assetsLoaded == (old(assetsLoaded) || (page.domReady && page.gsapDefined))
      ensures hideRequests == old(hideRequests) + (if page.domReady && page.gsapDefined then 2 + imagesReported else 0)
      ensures loadingProgress == StartedProgress(page, old(loadingProgress))
    {
      ArmCallbacks(page.domReady, page.gsapDefined);
      InitImages(page.images, page.gsapDefined);
    }

    /** The DOM, GSAP and font parts of `initLoading`. */
    method ArmCallbacks(domReady: bool, gsapDefined: bool)
      requires Valid() && loadedAssets == 0 && !imagesStarted && !layoutReady
      modifies this`totalAssets, this`layoutReady, this`domPending, this`loadedAssets, this`loadingProgress,
               this`assetsLoaded, this`hideRequests, this`gsapIntervalActive, this`gsapTimeoutPending, this`fontsPending
      ensures Valid() && Armed(domReady, gsapDefined) && !imagesStarted
      ensures loadedAssets == (if domReady then 1 else 0) + (if gsapDefined then 1 else 0)
      ensures assetsLoaded == (old(assetsLoaded) || (domReady && gsapDefined))
      ensures hideRequests == old(hideRequests) + (if domReady && gsapDefined then 2 else 0)
      ensures loadingProgress == ArmedProgress(domReady, gsapDefined, old(loadingProgress))
    {
      totalAssets := TOTAL_ASSETS;
      StartDom(domReady, gsapDefined);
      StartGsap(gsapDefined);
      fontsPending := true;
    }

    /** The DOM part of `initLoading`: a ready document is reported at once,
        a loading one gets its `DOMContentLoaded` listener. */
    method StartDom(domReady: bool, gsapDefined: bool)
      requires Valid() && totalAssets == TOTAL_ASSETS && loadedAssets == 0 && !layoutReady
      modifies this`layoutReady, this`domPending, this`loadedAssets, this`loadingProgress, this`assetsLoaded, this`hideRequests
      ensures Valid()
      ensures layoutReady == domReady && domPending == !domReady
      ensures loadedAssets == if domReady then 1 else 0
      ensures domReady ==> Reported(old(assetsLoaded), old(hideRequests), DOM_PROGRESS, gsapDefined)
      ensures !domReady ==> assetsLoaded == old(assetsLoaded) && hideRequests == old(hideRequests)
                            && loadingProgress == old(loadingProgress)
    {
      if domReady {
        layoutReady := true;
        CheckAssetLoaded(DOM_PROGRESS, gsapDefined);
        domPending := false;
      } else {
        domPending := true;
      }
    }

    /** The GSAP part of `initLoading`: a defined `gsap` is reported at once,
        otherwise the 50 ms poll and the 5 s fallback are armed. */
    method StartGsap(gsapDefined: bool)
      requires Valid() && totalAssets == TOTAL_ASSETS && loadedAssets <= 1
      modifies this`gsapIntervalActive, this`gsapTimeoutPending, this`loadedAssets, this`loadingProgress,
               this`assetsLoaded, this`hideRequests
      ensures Valid()
      ensures gsapIntervalActive == !gsapDefined && gsapTimeoutPending == !gsapDefined
      ensures loadedAssets == old(loadedAssets) + if gsapDefined then 1 else 0
      ensures gsapDefined ==> Reported(old(assetsLoaded), old(hideRequests), GSAP_PROGRESS, true)
      ensures !gsapDefined ==> assetsLoaded == old(assetsLoaded) && hideRequests == old(hideRequests)
                               && loadingProgress == old(loadingProgress)
    {
      if gsapDefined {
        CheckAssetLoaded(GSAP_PROGRESS, true);
        gsapIntervalActive, gsapTimeoutPending := false, false;
      } else {
        gsapIntervalActive, gsapTimeoutPending := true, true;
      }
    }

    /** The image part of `initLoading`: ready images are counted at once,
        the others get a load/error handler, and the `images` asset is
        reported now if all of them were ready. */
    method InitImages(images: seq<Image>, gsapDefined: bool)
      requires Valid() && !imagesStarted && totalAssets == TOTAL_ASSETS
      modifies this`imagesStarted, this`totalImages, this`loadedImages, this`pendingImages,
               this`imagesReported, this`loadedAssets, this`loadingProgress, this`assetsLoaded, this`hideRequests
      ensures Valid() && imagesStarted
      ensures totalImages == |images| && loadedImages == CountReady(images, |images|)
      ensures pendingImages == Unready(images, |images|)
      ensures imagesReported == (if AllImagesReady(images) then 1 else 0)
      ensures loadedAssets == old(loadedAssets) + imagesReported
      ensures imagesReported == 0 ==> assetsLoaded == old(assetsLoaded) && hideRequests == old(hideRequests)
      ensures imagesReported == 0 ==>
                loadingProgress == if loadedImages > 0 then ImageProgress(loadedImages, totalImages) else old(loadingProgress)
      ensures imagesReported == 1 ==> Reported(old(assetsLoaded), old(hideRequests), IMAGES_PROGRESS, gsapDefined)
    {
      totalImages := |images|;
      if |images| == 0 {
        imagesStarted := true;
        imagesReported := 1;
        CheckAssetLoaded(IMAGES_PROGRESS, gsapDefined);
        return;
      }
      CountImages(images);
      imagesStarted := true;
      if loadedImages == totalImages {
        imagesReported := 1;
        CheckAssetLoaded(IMAGES_PROGRESS, gsapDefined);
      }
    }

    /** The `forEach` over the images: a ready one is counted and moves the
        progress, another one is left to its handler. */
    method CountImages(images: seq<Image>)
      requires totalImages == |images| > 0 && loadedImages == 0 && pendingImages == {}
      requires 0.0 <= loadingProgress <= 100.0
      modifies this`loadedImages, this`pendingImages, this`loadingProgress
      ensures loadedImages == CountReady(images, |images|) && pendingImages == Unready(images, |images|)
      ensures loadedImages + |pendingImages| == totalImages
      ensures loadedImages == totalImages <==> AllImagesReady(images)
      ensures 0.0 <= loadingProgress <= 100.0
      ensures loadedImages > 0 ==> loadingProgress == ImageProgress(loadedImages, totalImages)
      ensures loadedImages == 0 ==> loadingProgress == old(loadingProgress)
    {
      var i := 0;
      while i < |images|
        invariant 0 <= i <= |images|
        invariant loadedImages == CountReady(images, i)
        invariant pendingImages == Unready(images, i)
        invariant 0.0 <= loadingProgress <= 100.0
        invariant loadedImages > 0 ==> loadingProgress == ImageProgress(loadedImages, totalImages)
        invariant loadedImages == 0 ==> loadingProgress == old(loadingProgress)
      {
        if ImageReady(images[i]) {
          loadedImages := loadedImages + 1;
          UpdateProgress(ImageProgress(loadedImages, totalImages));
        } else {
          pendingImages := pendingImages + {i};
        }
        i := i + 1;
      }
      UnreadyCount(images, |images|);
      CountReadyAll(images, |images|);
    }

    /** The load or error handler of pending image `i`; it removes both
        listeners, so it runs once. */
    method ImageSettled(i: nat, gsapDefined: bool)
      requires Valid() && imagesStarted && i in pendingImages && totalAssets == TOTAL_ASSETS
      modifies this`loadedImages, this`pendingImages, this`imagesReported,
               this`loadedAssets, this`loadingProgress, this`assetsLoaded, this`hideRequests
      ensures Valid()
      ensures loadedImages == old(loadedImages) + 1 && pendingImages == old(pendingImages) - {i}
      ensures imagesReported == old(imagesReported) + (if loadedImages == totalImages then 1 else 0)
      ensures loadedAssets == old(loadedAssets) + (if loadedImages == totalImages then 1 else 0)
      ensures loadedImages < totalImages ==>
                loadingProgress == ImageProgress(loadedImages, totalImages)
                && assetsLoaded == old(assetsLoaded) && hideRequests == old(hideRequests)
      ensures loadedImages == totalImages ==> Reported(old(assetsLoaded), old(hideRequests), IMAGES_PROGRESS, gsapDefined)
    {
      pendingImages := pendingImages - {i};
      loadedImages := loadedImages + 1;
      UpdateProgress(ImageProgress(loadedImages, totalImages));
      if loadedImages == totalImages {
        imagesReported := imagesReported + 1;
        CheckAssetLoaded(IMAGES_PROGRESS, gsapDefined);
      }
    }

    /** The `DOMContentLoaded` listener of `initLoading`.  `Boot` shows that
        the script never registers it: `initLoading` always finds the
        document past `loading`. */
    method DomContentLoaded(gsapDefined: bool)
      requires Valid() && domPending && totalAssets == TOTAL_ASSETS
      modifies this`domPending, this`layoutReady, this`loadedAssets, this`loadingProgress, this`assetsLoaded, this`hideRequests
      ensures Valid() && !domPending && layoutReady
      ensures loadedAssets == old(loadedAssets) + 1
      ensures Reported(old(assetsLoaded), old(hideRequests), DOM_PROGRESS, gsapDefined)
      ensures gsapDefined ==> assetsLoaded && loadingProgress == 100.0 && hideRequests == old(hideRequests) + 1
    {
      domPending := false;
      layoutReady := true;
      CheckAssetLoaded(DOM_PROGRESS, gsapDefined);
    }

    /** One 50 ms tick of the GSAP poll. */
    method GsapTick(gsapDefined: bool)
      requires Valid() && gsapIntervalActive && totalAssets == TOTAL_ASSETS
      modifies this`gsapIntervalActive, this`loadedAssets, this`loadingProgress, this`assetsLoaded, this`hideRequests
      ensures Valid()
      ensures gsapIntervalActive == !gsapDefined
      ensures loadedAssets == old(loadedAssets) + (if gsapDefined then 1 else 0)
      ensures gsapDefined ==> Reported(old(assetsLoaded), old(hideRequests), GSAP_PROGRESS, true)
      ensures !gsapDefined ==> assetsLoaded == old(assetsLoaded) && hideRequests == old(hideRequests)
                               && loadingProgress == old(loadingProgress)
    {
      if gsapDefined {
        gsapIntervalActive := false;
        CheckAssetLoaded(GSAP_PROGRESS, true);
      }
    }

    /** The 5 s GSAP fallback: it stops the poll and reports GSAP if it is
        defined, whether or not the poll already did. */
    method GsapTimeout(gsapDefined: bool)
      requires Valid() && gsapTimeoutPending && totalAssets == TOTAL_ASSETS
      modifies this`gsapIntervalActive, this`gsapTimeoutPending, this`loadedAssets, this`loadingProgress,
               this`assetsLoaded, this`hideRequests
      ensures Valid() && !gsapIntervalActive && !gsapTimeoutPending
      ensures loadedAssets == old(loadedAssets) + (if gsapDefined then 1 else 0)
      ensures gsapDefined ==> Reported(old(assetsLoaded), old(hideRequests), GSAP_PROGRESS, true)
      ensures !gsapDefined ==> assetsLoaded == old(assetsLoaded) && hideRequests == old(hideRequests)
                               && loadingProgress == old(loadingProgress)
    {
      gsapIntervalActive := false;
      gsapTimeoutPending := false;
      if gsapDefined {
        CheckAssetLoaded(GSAP_PROGRESS, true);
      }
    }

    /** `document.fonts.ready` settled (either way), or the 100 ms fallback
        without the Font Loading API. */
    method FontsSettled(gsapDefined: bool)
      requires Valid() && fontsPending && totalAssets == TOTAL_ASSETS
      modifies this`fontsPending, this`loadedAssets, this`loadingProgress, this`assetsLoaded, this`hideRequests
      ensures Valid() && !fontsPending
      ensures loadedAssets == old(loadedAssets) + 1
      ensures Reported(old(assetsLoaded), old(hideRequests), FONTS_PROGRESS, gsapDefined)
    {
      fontsPending := false;
      CheckAssetLoaded(FONTS_PROGRESS, gsapDefined);
    }

    /** `hideLoader`, run by a queued hide or by the 5 s fallback. */
    method HideLoader()
      modifies this`hidden
      ensures hidden == (old(hidden) || hasLoader)
    {
      if hasLoader {
        hidden := true;
      }
    }

    /** The 800 ms timer `hideLoader` starts once the loader is hidden. */
    method AfterHide()
      requires hidden
      modifies this`loaderRemoved, this`bodyLoaded
      ensures loaderRemoved && bodyLoaded
    {
      loaderRemoved := true;
      bodyLoaded := true;
    }

    /** The end of `animateLoader`, 100 ms after `initLoading`: the
        progress bar is set back to 0, whatever the reports set. */
    method AnimateLoader()
      requires Valid()
      modifies this`loadingProgress
      ensures Valid() && loadingProgress == 0.0
    {
      UpdateProgress(0.0);
    }

    /** The 5 s fallback of the script: hide a loader still showing. */
    method FallbackTimeout() returns (forced: bool)
      modifies this`hidden
      ensures forced == (hasLoader && !old(hidden))
      ensures hidden == (old(hidden) || hasLoader)
    {
      forced := hasLoader && !hidden;
      if forced {
        HideLoader();
      }
    }
  }

  /** The start of the script: the module state and the loader element,
      then `initLoading`.  The script calls `initLoading` at once when the
      document is past `loading` and otherwise from a `DOMContentLoaded`
      listener, by which time it is past `loading` too; so `initLoading`
      always finds the DOM ready, and its own `DOMContentLoaded` branch is
      never taken.  `page` is what `initLoading` finds besides. */
  method Boot(hasLoader: bool, page: PageState) returns (l: Loader, skipped: bool)
    ensures fresh(l) && l.Valid() && l.hasLoader == hasLoader && !l.hidden
    ensures skipped == AlreadyLoaded(page.(domReady := true))
    ensures skipped ==> l.bodyLoaded && l.loaderRemoved == hasLoader && l.loadedAssets == 0
                        && l.hideRequests == 0 && !l.assetsLoaded && l.loadingProgress == 0.0
    ensures !skipped ==> l.layoutReady && !l.domPending && !l.loaderRemoved && !l.bodyLoaded
    ensures !skipped ==> l.totalAssets == TOTAL_ASSETS && l.imagesStarted && l.fontsPending
    ensures !skipped ==> l.gsapIntervalActive == !page.gsapDefined && l.gsapTimeoutPending == !page.gsapDefined
    ensures !skipped ==> l.imagesReported == (if AllImagesReady(page.images) then 1 else 0)
    ensures !skipped ==> l.loadedAssets == 1 + (if page.gsapDefined then 1 else 0) + l.imagesReported
    ensures !skipped ==> l.assetsLoaded == page.gsapDefined
    ensures !skipped ==> l.hideRequests == (if page.gsapDefined then 2 + l.imagesReported else 0)
    ensures !skipped ==> l.loadingProgress == StartedProgress(page.(domReady := true), 0.0)
  {
    l := new Loader(hasLoader);
    skipped := l.InitLoading(page.(domReady := true));
  }

  /** A page already loaded skips the loader and removes it, yet the 5 s
      fallback still finds a loader without the `hidden` class and forces a
      hide: the loader reference survives its removal. */
  method SkippedPageStillForced(images: seq<Image>) returns (l: Loader, forced: bool)
    requires AllImagesReady(images)
    ensures l.loaderRemoved && l.bodyLoaded
    ensures forced && l.hidden
  {
    var skipped;
    l, skipped := Boot(true, PageState(true, true, None, true, images));
    forced := l.FallbackTimeout();
  }

  /** With GSAP arriving late, the poll and then the 5 s fallback both find it
      and both report it: the counter counts calls, not distinct assets. */
  method GsapCountedTwice(l: Loader)
    requires l.Valid() && l.gsapIntervalActive && l.gsapTimeoutPending && l.totalAssets == TOTAL_ASSETS
    modifies l
    ensures l.Valid() && l.loadedAssets == old(l.loadedAssets) + 2
  {
    l.GsapTick(true);
    l.GsapTimeout(true);
  }

  /** A page whose DOM is ready and whose GSAP is defined, but without
      `THREE`: the loader is not skipped, yet the DOM report and the GSAP
      report both find the critical assets loaded and each queues a hide. */
  method ReadyPageDismissedAtStart(l: Loader, images: seq<Image>)
    requires l.Valid() && l.loadedAssets == 0 && !l.imagesStarted && !l.layoutReady
    modifies l
    ensures l.assetsLoaded && l.layoutReady
    ensures l.hideRequests >= old(l.hideRequests) + 2
  {
    var page := PageState(true, false, None, true, images);
    var skipped := l.InitLoading(page);
  }

  /** A page without GSAP at first, with images still loading: the DOM is
      reported at start, and the poll tick that finds GSAP then dismisses
      the loader, with the fonts and images still outstanding. */
  method LateGsapDismisses(hasLoader: bool, images: seq<Image>) returns (l: Loader)
    requires !AllImagesReady(images)
    ensures l.assetsLoaded && l.loadingProgress == 100.0
    ensures l.loadedAssets == 2 && l.hideRequests == 1
    ensures l.fontsPending && l.pendingImages != {}
  {
    var skipped;
    l, skipped := Boot(hasLoader, PageState(false, true, None, true, images));
    assert !l.assetsLoaded && l.hideRequests == 0;
    l.GsapTick(true);
  }

  /** A page that never gets GSAP, with all its images ready: the DOM and
      the images are reported at start, and the fonts report, the third,
      dismisses the loader by the count alone. */
  method CountDismissesWithoutGsap(hasLoader: bool, images: seq<Image>) returns (l: Loader)
    requires AllImagesReady(images)
    ensures l.assetsLoaded && l.layoutReady && l.loadingProgress == 100.0
    ensures l.loadedAssets == 3 && l.hideRequests == 1
  {
    var skipped;
    l, skipped := Boot(hasLoader, PageState(false, true, None, true, images));
    assert l.loadedAssets == 2 && l.hideRequests == 0;
    l.FontsSettled(false);
  }

  /** A ready page with GSAP but without `THREE`: `initLoading` takes the
      progress to 100 and queues its hides, and `animateLoader`, 100 ms
      later and before the first 300 ms hide, sets the bar back to 0. */
  method ProgressResetBeforeHide(hasLoader: bool, images: seq<Image>) returns (l: Loader)
    ensures l.hideRequests >= 2 && l.loadingProgress == 0.0
  {
    var skipped;
    l, skipped := Boot(hasLoader, PageState(true, false, None, true, images));
    l.AnimateLoader();
  }
}
