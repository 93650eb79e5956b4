/**
 * The application object's lifecycle bookkeeping: whether the app went to
 * the background, which activity is current, and the app-open ad it shows
 * on coming back to the foreground.
 */
module StatusSaverApplication {
  import opened Wrappers
  import AdMobUtils

  /** An activity instance, compared by identity. */
  datatype ActivityId = ActivityId(id: nat)

  class StatusSaverApplication {
    var currentActivity: Option<ActivityId>
    var appWasInBackground: bool
    const ads: AdMobUtils.AppOpenAdManager

    constructor(ads: AdMobUtils.AppOpenAdManager)
      ensures currentActivity == None && !appWasInBackground && this.ads == ads
    {
      currentActivity := None;
      appWasInBackground := false;
      this.ads := ads;
    }

    /** `onCreate`: starts loading an app-open ad. */
    method OnCreate(now: int) returns (loadRequested: bool)
      ensures loadRequested <==> !ads.isShowingAd && !ads.IsAdAvailable(now)
    {
      loadRequested := ads.LoadAd(now);
    }

    /**
     * `onStart`: coming back from the background consumes the flag and,
     * when an activity is current, asks the ad manager to show an ad.
     */
    method OnStart(now: int) returns (showAttempted: bool, shown: Option<AdMobUtils.AdHandle>)
      modifies this
      ensures !appWasInBackground && currentActivity == old(currentActivity)
      ensures showAttempted <==> old(appWasInBackground) && currentActivity.Some?
      ensures shown.Some? <==> showAttempted && !ads.isShowingAd && ads.IsAdAvailable(now)
    {
      showAttempted, shown := false, None;
      if appWasInBackground {
        appWasInBackground := false;
        if currentActivity.Some? {
          var loadRequested;
          shown, loadRequested := ads.ShowAdIfAvailable(now);
          showAttempted := true;
        }
      }
    }

    /** `onStop`: the app went to the background. */
    method OnStop()
      modifies this
      ensures appWasInBackground && currentActivity == old(currentActivity)
    {
      appWasInBackground := true;
    }

    /** `onActivityCreated`, `onActivityStarted` and `onActivityResumed` make the activity current. */
    method OnActivityActive(activity: ActivityId)
      modifies this
      ensures currentActivity == Some(activity) && appWasInBackground == old(appWasInBackground)
    {
      currentActivity := Some(activity);
    }

    /** `onActivityDestroyed` forgets the activity only if it is the current one. */
    method OnActivityDestroyed(activity: ActivityId)
      modifies this
      ensures currentActivity == if old(currentActivity) == Some(activity) then None else old(currentActivity)
      ensures appWasInBackground == old(appWasInBackground)
    {
      if currentActivity == Some(activity) {
        currentActivity := None;
      }
    }
  }

  /** A second start without a stop in between never tries to show an ad. */
  method StartTwice(app: StatusSaverApplication, now: int, later: int) returns (second: bool)
    modifies app
    ensures !second
  {
    var first, shown := app.OnStart(now);
    second, shown := app.OnStart(later);
  }

  /** A stop followed by a start with an activity current tries exactly once to show an ad. */
  method StopThenStart(app: StatusSaverApplication, activity: ActivityId, now: int) returns (attempted: bool)
    modifies app
    ensures attempted && !app.appWasInBackground
  {
    app.OnActivityActive(activity);
    app.OnStop();
    var shown;
    attempted, shown := app.OnStart(now);
  }
}
