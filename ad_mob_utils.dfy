/**
 * The two ad holders: the rewarded-ad slot and the app-open ad with its
 * showing flag and load time. The ads SDK's callbacks are event methods,
 * and the wall clock is the `now` parameter (milliseconds, as `Date().time`).
 */
module AdMobUtils {
  import opened Wrappers

  /** A loaded ad object; what it displays plays no part here. */
  datatype AdHandle = AdHandle(id: nat)

  /** `4 * 60 * 60 * 1000`, four hours in milliseconds. */
  const FourHoursMs: int := 4 * 60 * 60 * 1000

  /** An ad is available when one is held and was loaded less than four hours ago. */
  predicate AdAvailable(ad: Option<AdHandle>, loadTime: int, now: int) {
    ad.Some? && now - loadTime < FourHoursMs
  }

  /** An ad loaded at `t` stays available up to, and not including, `t` plus 14 400 000 ms. */
  lemma FreshnessWindow(ad: AdHandle, t: int, now: int)
    ensures AdAvailable(Some(ad), t, now) <==> now < t + 14400000
    ensures !AdAvailable(None, t, now)
  {
  }

  /** `RewardedAdManager`: a single slot for the last loaded rewarded ad. */
  class RewardedAdManager {
    var rewardedAd: Option<AdHandle>

    constructor()
      ensures rewardedAd == None
    {
      rewardedAd := None;
    }

    /** `onAdLoaded`: the ad fills the slot. */
    method OnAdLoaded(ad: AdHandle)
      modifies this
      ensures rewardedAd == Some(ad)
    {
      rewardedAd := Some(ad);
    }

    /** `onAdFailedToLoad`: the slot is emptied and the error's message passed on. */
    method OnAdFailedToLoad(message: string) returns (reported: string)
      modifies this
      ensures rewardedAd == None && reported == message
    {
      rewardedAd := None;
      reported := message;
    }

    /** `showRewardedAd`: shows the held ad, if any; nothing changes either way. */
    method ShowRewardedAd() returns (shown: Option<AdHandle>)
      ensures shown == rewardedAd
    {
      shown := rewardedAd;
    }

    /** `onAdDismissedFullScreenContent`: a dismissed ad is dropped. */
    method OnAdDismissed()
      modifies this
      ensures rewardedAd == None
    {
      rewardedAd := None;
    }
  }

  /** `AppOpenAdManager` */
  class AppOpenAdManager {
    var appOpenAd: Option<AdHandle>
    var isShowingAd: bool
    var loadTime: int

    constructor()
      ensures appOpenAd == None && !isShowingAd && loadTime == 0
    {
      appOpenAd := None;
      isShowingAd := false;
      loadTime := 0;
    }

    /** `isAdAvailable` at time `now`. */
    predicate IsAdAvailable(now: int)
      reads this
    {
      AdAvailable(appOpenAd, loadTime, now)
    }

    /** `loadAd`: a request is sent unless an ad is showing or a fresh one is held. */
    method LoadAd(now: int) returns (requested: bool)
      ensures requested <==> !isShowingAd && !IsAdAvailable(now)
    {
      if isShowingAd || IsAdAvailable(now) {
        return false;
      }
      requested := true;
    }

    /** `onAdLoaded`: the ad is held and stamped with the load time. */
    method OnAdLoaded(ad: AdHandle, now: int)
      modifies this
      ensures appOpenAd == Some(ad) && loadTime == now && isShowingAd == old(isShowingAd)
      ensures IsAdAvailable(now)
    {
      appOpenAd := Some(ad);
      loadTime := now;
    }

    /** `onAdFailedToLoad` */
    method OnAdFailedToLoad()
      modifies this
      ensures appOpenAd == None && loadTime == old(loadTime) && isShowingAd == old(isShowingAd)
    {
      appOpenAd := None;
    }

    /**
     * `showAdIfAvailable`: a free, fresh ad is shown; otherwise a new load
     * is attempted, which is sent exactly when no ad is showing.
     */
    method ShowAdIfAvailable(now: int) returns (shown: Option<AdHandle>, loadRequested: bool)
      ensures shown.Some? <==> !isShowingAd && IsAdAvailable(now)
      ensures shown.Some? ==> shown == appOpenAd && !loadRequested
      ensures shown.None? ==> (loadRequested <==> !isShowingAd)
    {
      if isShowingAd || !IsAdAvailable(now) {
        loadRequested := LoadAd(now);
        shown := None;
        return;
      }
      shown := appOpenAd;
      loadRequested := false;
    }

    /** `onAdShowedFullScreenContent` */
    method OnAdShowed()
      modifies this
      ensures isShowingAd && appOpenAd == old(appOpenAd) && loadTime == old(loadTime)
    {
      isShowingAd := true;
    }

    /** `onAdDismissedFullScreenContent`: the ad is dropped and a new one is always requested. */
    method OnAdDismissed(now: int) returns (loadRequested: bool)
      modifies this
      ensures appOpenAd == None && !isShowingAd && loadTime == old(loadTime)
      ensures loadRequested
    {
      appOpenAd := None;
      isShowingAd := false;
      loadRequested := LoadAd(now);
    }

    /** `onAdFailedToShowFullScreenContent`: as a dismissal. */
    method OnAdFailedToShow(now: int) returns (loadRequested: bool)
      modifies this
      ensures appOpenAd == None && !isShowingAd && loadTime == old(loadTime)
      ensures loadRequested
    {
      appOpenAd := None;
      isShowingAd := false;
      loadRequested := LoadAd(now);
    }
  }

  /**
   * While an ad is on screen, asking to show another neither shows one nor
   * sends a load request.
   */
  method ShowWhileShowing(m: AppOpenAdManager, ad: AdHandle, now: int) returns (shown: Option<AdHandle>, loadRequested: bool)
    modifies m
    ensures shown == None && !loadRequested
  {
    m.OnAdLoaded(ad, now);
    m.OnAdShowed();
    shown, loadRequested := m.ShowAdIfAvailable(now);
  }

  /** An ad loaded while none was showing is shown when asked within four hours. */
  method FreshAdIsShown(m: AppOpenAdManager, ad: AdHandle, loadedAt: int, now: int) returns (shown: Option<AdHandle>)
    requires !m.isShowingAd
    requires loadedAt <= now < loadedAt + FourHoursMs
    modifies m
    ensures shown == Some(ad)
  {
    m.OnAdLoaded(ad, loadedAt);
    var loadRequested;
    shown, loadRequested := m.ShowAdIfAvailable(now);
  }
}
