/** The browser identity strings (`UserAgentManager`). The source picks table
    entries with `random.choice`; here the picks are index parameters, so each
    generator is a function from indices to strings. */
module UserAgents {
  import opened Wrappers
  import opened Text

  /** Operating-system descriptors of the desktop identity */
  const OsList: seq<string> := [
    "Macintosh; Intel Mac OS X 10_15_7",
    "Windows NT 10.0; Win64; x64",
    "Windows NT 10.0; WOW64",
    "Windows NT 6.1; Win64; x64",
    "X11; Linux x86_64",
    "X11; Ubuntu; Linux x86_64"
  ]

  /** Chrome versions shared by the desktop and the mobile identity */
  const ChromeVersions: seq<string> := [
    "120.0.0.0",
    "121.0.0.0",
    "122.0.0.0",
    "123.0.0.0"
  ]

  /** Device descriptors of the mobile identity */
  const MobileDevices: seq<string> := [
    "iPhone; CPU iPhone OS 16_0 like Mac OS X",
    "Linux; Android 13; SM-S908B",
    "Linux; Android 13; Pixel 7",
    "Linux; Android 12; SM-S906N",
    "iPhone; CPU iPhone OS 15_0 like Mac OS X",
    "Linux; Android 12; Pixel 6"
  ]

  // Fixed fragments of the identity templates. The long ones are written as
  // concatenations of short literals only to keep the proofs about them cheap.
  const DesktopHead := "Mozilla/5.0 "
  const WebKitGecko := " AppleWebKit/537.36" + " (KHTML, like Gecko) "
  const DesktopTail := "Safari/537.36"
  const MobileTail := "Mobile Safari/537.36"
  const SafariVersion := "Version/16.0"
  const SafariWebKit := " AppleWebKit/605.1.15" + " (KHTML, like Gecko) "
  const SafariMobileTail := SafariWebKit + SafariVersion + " Mobile/15E148" + " Safari/604.1"

  /** The desktop template, filled with an OS descriptor and a Chrome version */
  function DesktopFormat(os: string, version: string): string {
    DesktopHead + "(" + os + ")" + WebKitGecko + "Chrome/" + version + " " + DesktopTail
  }

  /** The fixed Safari template given to iPhones */
  function IPhoneFormat(device: string): string {
    DesktopHead + "(" + device + ")" + SafariMobileTail
  }

  /** The Chrome Mobile template given to every other device */
  function ChromeMobileFormat(device: string, version: string): string {
    DesktopHead + "(" + device + ")" + WebKitGecko + "Chrome/" + version + " " + MobileTail
  }

  /** Every identity the desktop generator can produce: the OS x version
      cross-product of the two tables */
  ghost function DesktopCatalogue(): set<string> {
    set os, v | os in OsList && v in ChromeVersions :: DesktopFormat(os, v)
  }

  /** The device check `'iPhone' in device` */
  predicate IsIPhone(device: string) {
    Contains(device, "iPhone")
  }

  // Character facts about the fixed fragments and the table entries. Each
  // literal is examined in a lemma of its own, which keeps every proof small.

  lemma HeadFree()
    ensures '(' !in DesktopHead && 'C' !in DesktopHead && 'm' !in DesktopHead
  {
  }

  lemma WebKitGeckoFree()
    ensures 'C' !in WebKitGecko
  {
  }

  lemma SafariTailFree()
    ensures 'm' !in SafariMobileTail
  {
  }

  /** A descriptor that can sit between "(" and ")" ahead of "Chrome/": it
      holds no ")" and no "C" */
  predicate PlainDescriptor(s: string) {
    ')' !in s && 'C' !in s
  }

  // Facts about the literal table entries are stated one entry per lemma:
  // each lemma then mentions a single literal, which keeps every proof
  // obligation small; a lemma over the whole table costs the solver far more.
  lemma Os0() ensures PlainDescriptor("Macintosh; Intel Mac OS X 10_15_7") {}
  lemma Os1() ensures PlainDescriptor("Windows NT 10.0; Win64; x64") {}
  lemma Os2() ensures PlainDescriptor("Windows NT 10.0; WOW64") {}
  lemma Os3() ensures PlainDescriptor("Windows NT 6.1; Win64; x64") {}
  lemma Os4() ensures PlainDescriptor("X11; Linux x86_64") {}
  lemma Os5() ensures PlainDescriptor("X11; Ubuntu; Linux x86_64") {}

  /** No OS descriptor holds ")" (which would end the field early) or the "C"
      that starts "Chrome/" */
  lemma OsEntryClean(i: nat)
    requires i < |OsList|
    ensures PlainDescriptor(OsList[i])
  {
    if i == 0 { Os0(); }
    else if i == 1 { Os1(); }
    else if i == 2 { Os2(); }
    else if i == 3 { Os3(); }
    else if i == 4 { Os4(); }
    else { Os5(); }
  }

  /** No Chrome version holds a space */
  lemma VersionEntryClean(j: nat)
    requires j < |ChromeVersions|
    ensures ' ' !in ChromeVersions[j]
  {
  }

  lemma Android1() ensures PlainDescriptor("Linux; Android 13; SM-S908B") && 'h' !in "Linux; Android 13; SM-S908B" {}
  lemma Android2() ensures PlainDescriptor("Linux; Android 13; Pixel 7") && 'h' !in "Linux; Android 13; Pixel 7" {}
  lemma Android3() ensures PlainDescriptor("Linux; Android 12; SM-S906N") && 'h' !in "Linux; Android 12; SM-S906N" {}
  lemma Android5() ensures PlainDescriptor("Linux; Android 12; Pixel 6") && 'h' !in "Linux; Android 12; Pixel 6" {}

  /** The Android descriptors hold neither ")" nor "C" nor the "h" of "iPhone" */
  lemma AndroidEntryClean(d: nat)
    requires d < |MobileDevices| && d != 0 && d != 4
    ensures PlainDescriptor(MobileDevices[d]) && 'h' !in MobileDevices[d]
  {
    if d == 1 { Android1(); }
    else if d == 2 { Android2(); }
    else if d == 3 { Android3(); }
    else { Android5(); }
  }

  /** The shape shared by the two iPhone descriptors */
  predicate IPhoneShape(s: string) {
    OccursAt(s, "iPhone", 0) && ')' !in s && 'm' !in s
  }

  /** Both iPhone descriptors start with "iPhone" */
  lemma IPhoneDescriptorStarts(s: string)
    requires s == "iPhone; CPU iPhone OS 16_0 like Mac OS X" || s == "iPhone; CPU iPhone OS 15_0 like Mac OS X"
    ensures OccursAt(s, "iPhone", 0)
  {
    assert s[..6] == "iPhone" by {
      assert s[0] == 'i' && s[1] == 'P' && s[2] == 'h' && s[3] == 'o' && s[4] == 'n' && s[5] == 'e';
    }
  }
  lemma IPhone0NoParen() ensures ')' !in "iPhone; CPU iPhone OS 16_0 like Mac OS X" {}
  lemma IPhone0NoM() ensures 'm' !in "iPhone; CPU iPhone OS 16_0 like Mac OS X" {}

  lemma IPhone4NoParen() ensures ')' !in "iPhone; CPU iPhone OS 15_0 like Mac OS X" {}
  lemma IPhone4NoM() ensures 'm' !in "iPhone; CPU iPhone OS 15_0 like Mac OS X" {}

  /** The fifth device descriptor announces iOS 15 */
  lemma IPhone4IsIOS15() ensures OccursAt("iPhone; CPU iPhone OS 15_0 like Mac OS X", "OS 15_0", 19) {
    var s := "iPhone; CPU iPhone OS 15_0 like Mac OS X";
    assert s[19..26] == "OS 15_0" by {
      assert s[19] == 'O' && s[20] == 'S' && s[21] == ' ' && s[22] == '1' && s[23] == '5' && s[24] == '_' && s[25] == '0';
    }
  }

  /** The iPhone descriptors start with "iPhone" and hold no ")" and no "m" */
  lemma IPhoneEntryShape(d: nat)
    requires d == 0 || d == 4
    ensures IPhoneShape(MobileDevices[d])
  {
    if d == 0 {
      IPhoneDescriptorStarts(MobileDevices[0]); IPhone0NoParen(); IPhone0NoM();
    } else {
      IPhoneDescriptorStarts(MobileDevices[4]); IPhone4NoParen(); IPhone4NoM();
    }
  }

  // Parsing the templates back.

  /** The text between the first "(" and the first ")" of a desktop identity
      is its OS descriptor */
  lemma DesktopOsParsesBack(os: string, version: string)
    requires ')' !in os
    ensures Between(DesktopFormat(os, version), "(", ")") == Some(os)
  {
    var rest := WebKitGecko + "Chrome/" + version + " " + DesktopTail;
    assert DesktopFormat(os, version) == DesktopHead + "(" + os + ")" + rest;
    HeadFree();
    BetweenOfMarkedField(DesktopHead, "(", os, ")", rest);
  }

  /** The text between "Chrome/" and the next space of a desktop identity is
      its version */
  lemma DesktopVersionParsesBack(os: string, version: string)
    requires 'C' !in os && ' ' !in version
    ensures Between(DesktopFormat(os, version), "Chrome/", " ") == Some(version)
  {
    var pre := DesktopHead + "(" + os + ")" + WebKitGecko;
    HeadFree();
    WebKitGeckoFree();
    assert 'C' !in pre;
    assert DesktopFormat(os, version) == pre + "Chrome/" + version + " " + DesktopTail;
    BetweenOfMarkedField(pre, "Chrome/", version, " ", DesktopTail);
  }

  /** Distinct (OS, version) pairs give distinct desktop identities */
  lemma DesktopFormatInjective(os1: string, v1: string, os2: string, v2: string)
    requires ')' !in os1 && 'C' !in os1 && ' ' !in v1
    requires ')' !in os2 && 'C' !in os2 && ' ' !in v2
    requires DesktopFormat(os1, v1) == DesktopFormat(os2, v2)
    ensures os1 == os2 && v1 == v2
  {
    DesktopOsParsesBack(os1, v1);
    DesktopOsParsesBack(os2, v2);
    DesktopVersionParsesBack(os1, v1);
    DesktopVersionParsesBack(os2, v2);
  }

  /** `get_random_user_agent` with the two random picks given as indices */
  function RandomUserAgent(osChoice: nat, versionChoice: nat): (ua: string)
    requires osChoice < |OsList| && versionChoice < |ChromeVersions|
    ensures ua in DesktopCatalogue()
    ensures Between(ua, "(", ")") == Some(OsList[osChoice])
    ensures Between(ua, "Chrome/", " ") == Some(ChromeVersions[versionChoice])
  {
    OsEntryClean(osChoice);
    VersionEntryClean(versionChoice);
    DesktopOsParsesBack(OsList[osChoice], ChromeVersions[versionChoice]);
    DesktopVersionParsesBack(OsList[osChoice], ChromeVersions[versionChoice]);
    DesktopFormat(OsList[osChoice], ChromeVersions[versionChoice])
  }

  /** The catalogue holds nothing the generator cannot produce */
  lemma DesktopCatalogueIsReachable(ua: string)
    requires ua in DesktopCatalogue()
    ensures exists i, j :: 0 <= i < |OsList| && 0 <= j < |ChromeVersions| && RandomUserAgent(i, j) == ua
  {
    var os, v :| os in OsList && v in ChromeVersions && ua == DesktopFormat(os, v);
    var i :| 0 <= i < |OsList| && OsList[i] == os;
    var j :| 0 <= j < |ChromeVersions| && ChromeVersions[j] == v;
    assert RandomUserAgent(i, j) == ua;
  }

  /** Two picks give the same identity only when they pick the same OS entry
      and the same version entry */
  lemma RandomUserAgentInjective(i1: nat, j1: nat, i2: nat, j2: nat)
    requires i1 < |OsList| && j1 < |ChromeVersions|
    requires i2 < |OsList| && j2 < |ChromeVersions|
    ensures RandomUserAgent(i1, j1) == RandomUserAgent(i2, j2) ==>
      OsList[i1] == OsList[i2] && ChromeVersions[j1] == ChromeVersions[j2]
  {
    OsEntryClean(i1);
    OsEntryClean(i2);
    VersionEntryClean(j1);
    VersionEntryClean(j2);
    if RandomUserAgent(i1, j1) == RandomUserAgent(i2, j2) {
      DesktopFormatInjective(OsList[i1], ChromeVersions[j1], OsList[i2], ChromeVersions[j2]);
    }
  }

  /** Exactly the first and the fifth device entries are iPhones */
  lemma IPhoneDevices(d: nat)
    requires d < |MobileDevices|
    ensures IsIPhone(MobileDevices[d]) <==> d == 0 || d == 4
  {
    if d == 0 || d == 4 {
      IPhoneEntryShape(d);
    } else {
      AndroidEntryClean(d);
      MissingCharNotContained(MobileDevices[d], "iPhone", 2);
    }
  }

  /** The Safari template names its device and never mentions Chrome */
  lemma IPhoneFormatFacts(device: string)
    requires ')' !in device && 'm' !in device
    ensures Between(IPhoneFormat(device), "(", ")") == Some(device)
    ensures !Contains(IPhoneFormat(device), "Chrome/")
  {
    HeadFree();
    BetweenOfMarkedField(DesktopHead, "(", device, ")", SafariMobileTail);
    SafariTailFree();
    assert 'm' !in IPhoneFormat(device);
    MissingCharNotContained(IPhoneFormat(device), "Chrome/", 4);
  }

  /** The Chrome Mobile template names its device between the parentheses */
  lemma ChromeMobileDeviceParsesBack(device: string, version: string)
    requires ')' !in device
    ensures Between(ChromeMobileFormat(device, version), "(", ")") == Some(device)
  {
    var rest := WebKitGecko + "Chrome/" + version + " " + MobileTail;
    HeadFree();
    assert ChromeMobileFormat(device, version) == DesktopHead + "(" + device + ")" + rest;
    BetweenOfMarkedField(DesktopHead, "(", device, ")", rest);
  }

  /** The Chrome Mobile template names its version after "Chrome/" */
  lemma ChromeMobileVersionParsesBack(device: string, version: string)
    requires 'C' !in device && ' ' !in version
    ensures Between(ChromeMobileFormat(device, version), "Chrome/", " ") == Some(version)
  {
    var pre := DesktopHead + "(" + device + ")" + WebKitGecko;
    HeadFree();
    WebKitGeckoFree();
    assert 'C' !in pre;
    assert ChromeMobileFormat(device, version) == pre + "Chrome/" + version + " " + MobileTail;
    BetweenOfMarkedField(pre, "Chrome/", version, " ", MobileTail);
  }

  /** The Chrome Mobile template ends with " Mobile Safari/537.36" */
  lemma ChromeMobileEnding(device: string, version: string)
    ensures EndsWith(ChromeMobileFormat(device, version), " " + MobileTail)
  {
    var ua := ChromeMobileFormat(device, version);
    var pre := DesktopHead + "(" + device + ")" + WebKitGecko + "Chrome/" + version;
    assert ua == pre + " " + MobileTail;
    EndsWithConcat(pre, " " + MobileTail);
  }

  /** `get_mobile_user_agent` with the two random picks given as indices */
  function MobileUserAgent(deviceChoice: nat, versionChoice: nat): (ua: string)
    requires deviceChoice < |MobileDevices| && versionChoice < |ChromeVersions|
    ensures Between(ua, "(", ")") == Some(MobileDevices[deviceChoice])
    ensures IsIPhone(MobileDevices[deviceChoice]) ==> !Contains(ua, "Chrome/")
    ensures !IsIPhone(MobileDevices[deviceChoice]) ==>
      && Contains(ua, "Chrome/")
      && Between(ua, "Chrome/", " ") == Some(ChromeVersions[versionChoice])
      && EndsWith(ua, " " + MobileTail)
  {
    var device := MobileDevices[deviceChoice];
    var version := ChromeVersions[versionChoice];
    IPhoneDevices(deviceChoice);
    if IsIPhone(device) then
      IPhoneEntryShape(deviceChoice);
      IPhoneFormatFacts(device);
      IPhoneFormat(device)
    else
      AndroidEntryClean(deviceChoice);
      VersionEntryClean(versionChoice);
      ChromeMobileDeviceParsesBack(device, version);
      ChromeMobileVersionParsesBack(device, version);
      ChromeMobileEnding(device, version);
      ChromeMobileFormat(device, version)
  }

  /** An iPhone identity does not depend on the Chrome version picked */
  lemma IPhoneIgnoresVersion(d: nat, v1: nat, v2: nat)
    requires d < |MobileDevices| && v1 < |ChromeVersions| && v2 < |ChromeVersions|
    ensures IsIPhone(MobileDevices[d]) ==> MobileUserAgent(d, v1) == MobileUserAgent(d, v2)
  {
  }

  /** The Safari template announces "Version/16.0" whatever the device */
  lemma IPhoneFormatNamesSafari16(device: string)
    ensures Contains(IPhoneFormat(device), SafariVersion)
  {
    var pre := DesktopHead + "(" + device + ")" + SafariWebKit;
    var post := " Mobile/15E148" + " Safari/604.1";
    assert IPhoneFormat(device) == pre + SafariVersion + post;
    OccursBetween(pre, SafariVersion, post);
  }

  /** The iOS 15 entry is still announced as Safari "Version/16.0" */
  lemma IOS15DeviceClaimsVersion16(v: nat)
    requires v < |ChromeVersions|
    ensures Contains(MobileDevices[4], "OS 15_0")
    ensures Contains(MobileUserAgent(4, v), SafariVersion)
  {
    IPhoneDevices(4);
    IPhone4IsIOS15();
    ContainsIffOccurs(MobileDevices[4], "OS 15_0");
    IPhoneFormatNamesSafari16(MobileDevices[4]);
  }
}
