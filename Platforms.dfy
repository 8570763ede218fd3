/**
  The three target platforms and `detectPlatform`, which classifies an
  artifact or file name by case-insensitive keywords.
 */
module Platforms {
  import opened Common
  import opened Strings

  datatype Platform = Linux | Windows | MacOS

  /** The platforms every selection needs, in the order reports list them. */
  const RequiredPlatforms: seq<Platform> := [Linux, Windows, MacOS]

  function Name(p: Platform): string
  {
    match p
    case Linux => "Linux"
    case Windows => "Windows"
    case MacOS => "macOS"
  }

  predicate MentionsLinux(lowered: string)
  {
    Contains(lowered, "ubuntu") || Contains(lowered, "linux")
  }

  /**
    `detectPlatform(name)`: the first rule that matches the lower-cased
    name wins, Linux before Windows before macOS.  The macOS rule asks for
    "macos" or "mac", which is the same as asking for "mac".
   */
  function DetectPlatform(name: string): (r: Option<Platform>)
    ensures var lowered := ToLower(name);
      && (r == Some(Linux) <==> MentionsLinux(lowered))
      && (r == Some(Windows) <==> !MentionsLinux(lowered) && Contains(lowered, "windows"))
      && (r == Some(MacOS) <==> !MentionsLinux(lowered) && !Contains(lowered, "windows") && Contains(lowered, "mac"))
      && (r == None <==> !MentionsLinux(lowered) && !Contains(lowered, "windows") && !Contains(lowered, "mac"))
  {
    var lowered := ToLower(name);
    MacosMentionsMac(lowered);
    if MentionsLinux(lowered) then Some(Linux)
    else if Contains(lowered, "windows") then Some(Windows)
    else if Contains(lowered, "macos") || Contains(lowered, "mac") then Some(MacOS)
    else None
  }

  /** A name that mentions "macos" mentions "mac". */
  lemma MacosMentionsMac(s: string)
    ensures Contains(s, "macos") ==> Contains(s, "mac")
  {
    if Contains(s, "macos") {
      ContainsPrefixOfPattern(s, "macos", "mac");
    }
  }

  /** Lower-casing twice is lower-casing once. */
  lemma LowerIdempotent(s: string)
    ensures ToLower(ToLower(s)) == ToLower(s)
  {
    forall i | 0 <= i < |s| ensures ToLower(ToLower(s))[i] == ToLower(s)[i] {
      if IsUpperAscii(s[i]) {
        assert !IsUpperAscii(LowerChar(s[i]));
      }
    }
  }

  /** The classification does not depend on the case the name is written in. */
  lemma DetectPlatformIgnoresCase(name: string)
    ensures DetectPlatform(ToUpper(name)) == DetectPlatform(name)
    ensures DetectPlatform(ToLower(name)) == DetectPlatform(name)
  {
    LowerOfUpper(name);
    LowerIdempotent(name);
  }

  /** Every platform is one of the required ones. */
  lemma RequiredPlatformsComplete()
    ensures forall p: Platform :: p in RequiredPlatforms
  {
    forall p: Platform ensures p in RequiredPlatforms {
      match p
      case Linux => assert RequiredPlatforms[0] == p;
      case Windows => assert RequiredPlatforms[1] == p;
      case MacOS => assert RequiredPlatforms[2] == p;
    }
  }

  lemma ThreeKeysAreAll<T>(m: map<Platform, T>)
    ensures (Linux in m && Windows in m && MacOS in m) <==> forall p: Platform :: p in m
  {
    if Linux in m && Windows in m && MacOS in m {
      forall p: Platform ensures p in m {
        match p
        case Linux =>
        case Windows =>
        case MacOS =>
      }
    }
  }

  /** `hasAllPlatforms`: every platform has a report. */
  function HasAllPlatforms<T>(m: map<Platform, T>): (r: bool)
    ensures r <==> forall p: Platform :: p in m
  {
    ThreeKeysAreAll(m);
    Linux in m && Windows in m && MacOS in m
  }

  /** The required platforms without a report, in the fixed order. */
  function MissingPlatforms<T>(m: map<Platform, T>): (r: seq<Platform>)
    ensures forall p: Platform :: p in r <==> p !in m
    ensures IsSubseq(r, RequiredPlatforms)
    ensures r == [] <==> HasAllPlatforms(m)
  {
    var r := Filter(RequiredPlatforms, p => p !in m);
    FilterIsSubseq(RequiredPlatforms, p => p !in m);
    RequiredPlatformsComplete();
    r
  }
}
