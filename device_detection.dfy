/** Device classification of src/hooks/useDeviceDetection.ts: the
    width/height rule that tells phones, tablets and desktops apart, the
    device state a resize recomputes, and the glass-effect settings derived
    from it. Touch, pixel-ratio and vibration support are read from the
    browser and are inputs here. */
module DeviceDetection {

  datatype DeviceType = Mobile | Tablet | Desktop

  /** A phone screen size in portrait orientation. */
  datatype Resolution = Resolution(w: int, h: int)

  /** The phone resolutions of 2015 to 2025 that the rule recognises. */
  const MOBILE_RESOLUTIONS: seq<Resolution> := [
    Resolution(375, 667), Resolution(414, 736), Resolution(375, 812), Resolution(414, 896),
    Resolution(390, 844), Resolution(428, 926), Resolution(393, 852), Resolution(430, 932),
    Resolution(360, 640), Resolution(360, 720), Resolution(412, 732), Resolution(412, 869),
    Resolution(360, 780), Resolution(412, 915), Resolution(384, 854)]

  /** The width band that is always mobile. */
  const MOBILE_MIN_WIDTH: int := 320
  const MOBILE_MAX_WIDTH: int := 767
  /** Narrower screens that are not mobile are tablets. */
  const DESKTOP_MIN_WIDTH: int := 1024

  /** `mobileResolutions.some(...)`: the size is a listed resolution in
      portrait or in landscape. */
  predicate MatchesResolution(list: seq<Resolution>, width: int, height: int)
    decreases |list|
  {
    list != [] &&
    (((width == list[0].w && height == list[0].h) || (width == list[0].h && height == list[0].w)) ||
     MatchesResolution(list[1..], width, height))
  }

  lemma {:induction false} MatchesResolutionAt(list: seq<Resolution>, width: int, height: int)
    ensures MatchesResolution(list, width, height) <==>
      exists i :: 0 <= i < |list| && ((width == list[i].w && height == list[i].h) || (width == list[i].h && height == list[i].w))
    decreases |list|
  {
    if list != [] {
      MatchesResolutionAt(list[1..], width, height);
      assert forall i :: 0 <= i < |list| - 1 ==> list[1..][i] == list[i + 1];
    }
  }

  /** The list test does not depend on the orientation. */
  lemma {:induction false} MatchesResolutionSwap(list: seq<Resolution>, width: int, height: int)
    ensures MatchesResolution(list, width, height) == MatchesResolution(list, height, width)
    decreases |list|
  {
    if list != [] {
      MatchesResolutionSwap(list[1..], width, height);
    }
  }

  /** `isMobileDevice`. */
  predicate IsMobileSize(width: int, height: int) {
    (MOBILE_MIN_WIDTH <= width <= MOBILE_MAX_WIDTH) || MatchesResolution(MOBILE_RESOLUTIONS, width, height)
  }

  /** The device type of a screen size: mobile by the rule above, else
      tablet below 1024 pixels of width, else desktop. */
  function Classify(width: int, height: int): (t: DeviceType)
    ensures t == Mobile <==> IsMobileSize(width, height)
    ensures t == Tablet <==> !IsMobileSize(width, height) && width < DESKTOP_MIN_WIDTH
    ensures t == Desktop <==> !IsMobileSize(width, height) && width >= DESKTOP_MIN_WIDTH
  {
    if IsMobileSize(width, height) then Mobile else if width < DESKTOP_MIN_WIDTH then Tablet else Desktop
  }

  /** Every width from 320 to 767 is mobile, whatever the height. */
  lemma MobileBand(width: int, height: int)
    requires MOBILE_MIN_WIDTH <= width <= MOBILE_MAX_WIDTH
    ensures Classify(width, height) == Mobile
  {
  }

  /** Every listed phone is mobile, upright or turned sideways. */
  lemma ListedPhonesAreMobile(i: nat)
    requires i < |MOBILE_RESOLUTIONS|
    ensures Classify(MOBILE_RESOLUTIONS[i].w, MOBILE_RESOLUTIONS[i].h) == Mobile
    ensures Classify(MOBILE_RESOLUTIONS[i].h, MOBILE_RESOLUTIONS[i].w) == Mobile
  {
    var res := MOBILE_RESOLUTIONS[i];
    MatchesResolutionAt(MOBILE_RESOLUTIONS, res.w, res.h);
    MatchesResolutionAt(MOBILE_RESOLUTIONS, res.h, res.w);
  }

  /** Outside the band only an exact size counts: a phone on its side at
      844 x 390 is mobile, one pixel taller is a tablet. */
  lemma LandscapeExactness()
    ensures Classify(844, 390) == Mobile
    ensures Classify(844, 391) == Tablet
  {
    assert MOBILE_RESOLUTIONS[4] == Resolution(390, 844);
    MatchesResolutionAt(MOBILE_RESOLUTIONS, 844, 390);
    NoListedHeight(MOBILE_RESOLUTIONS, 844, 391);
  }

  /** A size whose height is no listed phone dimension matches nothing. */
  lemma {:induction false} NoListedHeight(list: seq<Resolution>, width: int, height: int)
    requires forall i :: 0 <= i < |list| ==> list[i].w != height && list[i].h != height
    ensures !MatchesResolution(list, width, height)
    decreases |list|
  {
    if list != [] {
      assert forall i :: 0 <= i < |list| - 1 ==> list[1..][i] == list[i + 1];
      NoListedHeight(list[1..], width, height);
    }
  }

  /** The size rule as a whole is not symmetric: the band looks at the
      width only. */
  lemma ClassifyNotSymmetric()
    ensures Classify(500, 1000) == Mobile && Classify(1000, 500) == Tablet
  {
    NoListedHeight(MOBILE_RESOLUTIONS, 1000, 500);
  }

  /** The hook's device state. `isLowPowerMode` starts false. */
  datatype DeviceInfo = DeviceInfo(
    kind: DeviceType,
    isTouchDevice: bool,
    screenWidth: int,
    screenHeight: int,
    pixelRatio: real,
    isLowPowerMode: bool,
    supportsHaptics: bool)

  /** The battery rule: under a fifth of a charge, or on battery power. */
  predicate LowPower(level: real, charging: bool) {
    level < 0.2 || !charging
  }

  class DeviceDetector {
    var info: DeviceInfo

    ghost predicate Valid()
      reads this
    {
      info.kind == Classify(info.screenWidth, info.screenHeight)
    }

    /** The initial state from the window size and the browser's
        capabilities; a pixel ratio of 0 (absent) reads as 1. */
    constructor (width: int, height: int, touch: bool, devicePixelRatio: real, haptics: bool)
      ensures Valid()
      ensures info == DeviceInfo(Classify(width, height), touch, width, height,
                                 if devicePixelRatio == 0.0 then 1.0 else devicePixelRatio, false, haptics)
    {
      info := DeviceInfo(Classify(width, height), touch, width, height,
                         if devicePixelRatio == 0.0 then 1.0 else devicePixelRatio, false, haptics);
    }

    /** `updateDeviceInfo` on resize: the same rule on the new size; only
        the type and the size change. */
    method Resize(width: int, height: int)
      requires Valid()
      modifies this
      ensures Valid()
      ensures info == old(info).(kind := Classify(width, height), screenWidth := width, screenHeight := height)
    {
      info := info.(kind := Classify(width, height), screenWidth := width, screenHeight := height);
    }

    /** A battery reading (the first one and every level change): low power
        below 20% charge or when not charging; nothing else changes. */
    method OnBattery(level: real, charging: bool)
      requires Valid()
      modifies this
      ensures Valid()
      ensures info == old(info).(isLowPowerMode := LowPower(level, charging))
    {
      info := info.(isLowPowerMode := LowPower(level, charging));
    }
  }

  datatype AnimationSpeed = Slow | Normal

  /** The glass-effect settings. */
  datatype GlassSettings = GlassSettings(
    blurIntensity: nat,
    opacity: real,
    borderWidth: real,
    shadowDepth: nat,
    animationSpeed: AnimationSpeed)

  /** `useGlassIntensity`. */
  function GlassIntensity(info: DeviceInfo): GlassSettings {
    var mobile := info.kind == Mobile;
    GlassSettings(
      if mobile then (if info.isLowPowerMode then 20 else 40) else if info.kind == Tablet then 30 else 25,
      if mobile then 0.8 else 0.7,
      if mobile then 0.5 else 1.0,
      if mobile then 48 else 32,
      if info.isLowPowerMode then Slow else Normal)
  }

  /** Low power halves the blur on phones and leaves it elsewhere; it never
      raises it. Animations are slow exactly in low power. Only the device
      type and the power flag matter. */
  lemma GlassIntensitySpec(info: DeviceInfo, other: DeviceInfo)
    ensures var low := GlassIntensity(info.(isLowPowerMode := true));
      var normal := GlassIntensity(info.(isLowPowerMode := false));
      && low.blurIntensity <= normal.blurIntensity
      && (info.kind == Mobile ==> 2 * low.blurIntensity == normal.blurIntensity)
      && (info.kind != Mobile ==> low.blurIntensity == normal.blurIntensity)
      && (GlassIntensity(info).animationSpeed == Slow <==> info.isLowPowerMode)
    ensures other.kind == info.kind && other.isLowPowerMode == info.isLowPowerMode ==>
      GlassIntensity(other) == GlassIntensity(info)
    ensures GlassIntensity(info).blurIntensity == 40 <==> info.kind == Mobile && !info.isLowPowerMode
    ensures GlassIntensity(info).blurIntensity == 20 <==> info.kind == Mobile && info.isLowPowerMode
    ensures GlassIntensity(info).blurIntensity == 30 <==> info.kind == Tablet
    ensures GlassIntensity(info).blurIntensity == 25 <==> info.kind == Desktop
  {
  }
}
