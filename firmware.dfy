/** The firmware plug-in: the installed release, the age of the last
    update check and the pending updates, and the licence expiry of an
    OPNsense Business installation. Times are whole seconds since the
    epoch, already converted from the agent's date strings. */
module Firmware {
  import opened Common

  /** The opnsense_firmware section, as far as the checks read it:
      product series and nickname, the time of the last update check (the
      key is absent before the first check), the status text and code, the
      names of the upgrade packages, the product id, and the licence expiry
      (absent on community installations). */
  datatype FirmwareInfo = FirmwareInfo(series: string, nickname: string, lastCheck: Option<int>,
                                       status: string, statusMsg: string, upgradePackages: seq<string>,
                                       productId: Option<string>, validTo: Option<int>)

  /** discovery_opnsense_firmware: one service for any non-empty section
      (None stands for an absent or empty section). */
  function DiscoverFirmware(section: Option<FirmwareInfo>): (n: nat)
    ensures n <= 1
    ensures n == 1 <==> section.Some?
  {
    if section.Some? then 1 else 0
  }

  /** discovery_opnsense_business: one service iff the product id says
      OPNsense Business. */
  function DiscoverBusiness(section: Option<FirmwareInfo>): (n: nat)
    ensures n <= 1
    ensures n == 1 <==> section.Some? && section.value.productId == Some("opnsense-business")
  {
    if section.Some? && section.value.productId == Some("opnsense-business") then 1 else 0
  }

  // ---------------------------------------------------------------------
  // Firmware check

  /** The seconds attribute of a timedelta of `delta` seconds: the part
      left after whole days, always in [0, 86400) even for negative
      deltas. */
  function SecondsPart(delta: int): (s: int)
    ensures 0 <= s < 86400
    ensures (delta - s) % 86400 == 0
  {
    delta % 86400
  }

  /** Adding whole days does not change the seconds part. */
  lemma SecondsPartDays(delta: int, days: int)
    ensures SecondsPart(delta + days * 86400) == SecondsPart(delta)
  {
    var s := SecondsPart(delta);
    var q := (delta - s) / 86400;
    assert delta == q * 86400 + s;
    assert delta + days * 86400 == (q + days) * 86400 + s;
  }

  /** The upper levels on the last check age ('last_check'). */
  datatype FirmwareParams = FirmwareParams(lastCheck: Levels)

  /** What the check reports once the age of the last update check is
      known (None when the section has no last check): the release first;
      without a last check only the status text; otherwise the age against
      the levels, the status text when an update is pending, and the
      number of upgrade packages. */
  function FirmwareItems(params: FirmwareParams, fw: FirmwareInfo, age: Option<int>): (r: seq<CheckItem>)
    ensures r != [] && r[0] == Result(OK, fw.series + " (" + fw.nickname + ")")
    ensures age.None? ==> r == [r[0], Result(OK, fw.statusMsg)]
    ensures age.Some? ==>
              && |r| == (if fw.status == "update" then 5 else 4)
              && r[1..3] == CheckLevels(age.value as real, params.lastCheck, NoLevels, Some("last_check"),
                                        "Last update check", None)
              && (fw.status == "update" <==> r[3] == Result(OK, fw.statusMsg))
              && r[|r| - 1] == Metric("updates", |fw.upgradePackages| as real, None, None)
  {
    var release := Result(OK, fw.series + " (" + fw.nickname + ")");
    if age.None? then [release, Result(OK, fw.statusMsg)]
    else
      [release]
      + CheckLevels(age.value as real, params.lastCheck, NoLevels, Some("last_check"), "Last update check", None)
      + (if fw.status == "update" then [Result(OK, fw.statusMsg)] else [])
      + [Metric("updates", |fw.upgradePackages| as real, None, None)]
  }

  /** check_opnsense_firmware as written: the age is the seconds part of
      now minus the last check. */
  function CheckFirmware(params: FirmwareParams, fw: FirmwareInfo, now: int): seq<CheckItem> {
    FirmwareItems(params, fw, if fw.lastCheck.Some? then Some(SecondsPart(now - fw.lastCheck.value)) else None)
  }

  /** As written, the reported age never reaches a day, so a warn level of
      a day or more (the rule suggests seven days) is never breached,
      however old the last check is. */
  lemma CheckFirmwareNeverWarnsAfterADay(params: FirmwareParams, fw: FirmwareInfo, now: int)
    requires fw.lastCheck.Some?
    requires params.lastCheck.Fixed? && params.lastCheck.warn >= 86400.0 && params.lastCheck.crit >= 86400.0
    ensures CheckFirmware(params, fw, now)[1] == Result(OK, "Last update check")
  {
  }

  /** A last check 25 hours old is reported as one hour old, so levels of
      two and four hours stay OK. */
  lemma CheckFirmwareOneDayLate(fw: FirmwareInfo, now: int)
    requires fw.lastCheck == Some(now - 25 * 3600)
    ensures CheckFirmware(FirmwareParams(Fixed(7200.0, 14400.0)), fw, now)[1..3]
         == [Result(OK, "Last update check"), Metric("last_check", 3600.0, Some((7200.0, 14400.0)), None)]
  {
    SecondsPartDays(3600, 1);
    assert now - fw.lastCheck.value == 3600 + 1 * 86400;
  }

  /** The check with the age it evidently means: the seconds elapsed since
      the last check. */
  function CheckFirmwareIntended(params: FirmwareParams, fw: FirmwareInfo, now: int): seq<CheckItem> {
    FirmwareItems(params, fw, if fw.lastCheck.Some? then Some(now - fw.lastCheck.value) else None)
  }

  /** With the elapsed time, the age result follows the levels: CRIT from
      the crit age on, WARN from the warn age on, OK before. */
  lemma IntendedAgeFollowsLevels(fw: FirmwareInfo, now: int, warn: real, crit: real)
    requires fw.lastCheck.Some?
    ensures var age := (now - fw.lastCheck.value) as real;
            var s := CheckFirmwareIntended(FirmwareParams(Fixed(warn, crit)), fw, now)[1].state;
            && (s == CRIT <==> age >= crit)
            && (s == WARN <==> age < crit && age >= warn)
            && (s == OK <==> age < crit && age < warn)
  {
    var age := now - fw.lastCheck.value;
    UpperLevelsSemantics(age as real, warn, crit, Some("last_check"), "Last update check", None);
  }

  /** Both agree while the last check is less than a day old. */
  lemma IntendedAgreesWithinADay(params: FirmwareParams, fw: FirmwareInfo, now: int)
    requires fw.lastCheck.Some? && 0 <= now - fw.lastCheck.value < 86400
    ensures CheckFirmwareIntended(params, fw, now) == CheckFirmware(params, fw, now)
  {
  }

  /** The release, then the status text: a section without a last check. */
  lemma CheckFirmwareNoLastCheck(params: FirmwareParams, fw: FirmwareInfo, now: int)
    requires fw.lastCheck.None?
    ensures CheckFirmware(params, fw, now) == [Result(OK, fw.series + " (" + fw.nickname + ")"), Result(OK, fw.statusMsg)]
  {
  }

  /** The up-to-date sample: a check 10649 seconds ago, no levels, no
      upgrade packages. */
  lemma CheckFirmwareUpToDate(fw: FirmwareInfo, now: int)
    requires fw.series == "24.7" && fw.nickname == "Thriving Tiger"
    requires fw.lastCheck == Some(now - 10649) && fw.status != "update" && fw.upgradePackages == []
    ensures CheckFirmware(FirmwareParams(NoLevels), fw, now)
         == [Result(OK, "24.7 (Thriving Tiger)"), Result(OK, "Last update check"),
             Metric("last_check", 10649.0, None, None), Metric("updates", 0.0, None, None)]
  {
    assert fw.series + " (" + fw.nickname + ")" == "24.7 (Thriving Tiger)";
    var r := CheckFirmware(FirmwareParams(NoLevels), fw, now);
    assert SecondsPart(10649) == 10649;
    assert |r| == 4;
  }

  // ---------------------------------------------------------------------
  // Business licence check

  /** 'expiredays' lower levels; absent means the default (60, 30). */
  datatype BusinessParams = BusinessParams(expiredays: Option<Levels>)

  function ExpireLevels(params: BusinessParams): (l: Levels)
    ensures params.expiredays.None? ==> l == Fixed(60.0, 30.0)
    ensures params.expiredays.Some? ==> l == params.expiredays.value
  {
    if params.expiredays.Some? then params.expiredays.value else Fixed(60.0, 30.0)
  }

  /** The days attribute of the timedelta from now to the expiry: whole
      days, rounded down. */
  function DaysUntil(validTo: int, now: int): (d: int)
    ensures d * 86400 <= validTo - now < (d + 1) * 86400
  {
    (validTo - now) / 86400
  }

  /** check_opnsense_business: the licence expiry in days against lower
      levels; a section without a licence expiry fails on the lookup. */
  function CheckBusiness(params: BusinessParams, fw: FirmwareInfo, now: int): (r: Try<seq<CheckItem>>)
    ensures r.Raised? <==> fw.validTo.None?
    ensures r.Raised? ==> r.exception == KeyError
  {
    if fw.validTo.None? then Raised(KeyError)
    else
      Ok(CheckLevels(DaysUntil(fw.validTo.value, now) as real, NoLevels, ExpireLevels(params),
                     Some("expiredays"), "License expires in", None))
  }

  /** The licence state: CRIT below the crit days, WARN below the warn
      days, OK otherwise; the metric carries the days and no levels. */
  lemma CheckBusinessLevels(params: BusinessParams, fw: FirmwareInfo, now: int)
    requires fw.validTo.Some?
    ensures var days := DaysUntil(fw.validTo.value, now) as real;
            var l := ExpireLevels(params);
            var r := CheckBusiness(params, fw, now).value;
            && |r| == 2
            && r[1] == Metric("expiredays", days, None, None)
            && (l.Fixed? ==> (r[0].state == CRIT <==> days < l.crit))
            && (l.Fixed? ==> (r[0].state == WARN <==> days >= l.crit && days < l.warn))
            && (l.NoLevels? ==> r[0].state == OK)
  {
    var days := DaysUntil(fw.validTo.value, now) as real;
    var l := ExpireLevels(params);
    if l.Fixed? {
      LowerLevelsSemantics(days, l.warn, l.crit, Some("expiredays"), "License expires in", None);
    }
  }

  /** A licence expiring 278 days and four hours from now: OK on the
      default levels, WARN below (360, 180), CRIT below (360, 300). */
  lemma CheckBusinessExamples(fw: FirmwareInfo, now: int)
    requires fw.validTo == Some(now + 278 * 86400 + 4 * 3600)
    ensures CheckBusiness(BusinessParams(None), fw, now)
         == Ok([Result(OK, "License expires in"), Metric("expiredays", 278.0, None, None)])
    ensures CheckBusiness(BusinessParams(Some(Fixed(360.0, 180.0))), fw, now).value[0].state == WARN
    ensures CheckBusiness(BusinessParams(Some(Fixed(360.0, 300.0))), fw, now).value[0].state == CRIT
  {
    assert DaysUntil(fw.validTo.value, now) == 278;
    LowerLevelsSemantics(278.0, 60.0, 30.0, Some("expiredays"), "License expires in", None);
    assert CheckLevels(278.0, NoLevels, Fixed(60.0, 30.0), Some("expiredays"), "License expires in", None)
        == [Result(OK, "License expires in"), Metric("expiredays", 278.0, None, None)];
  }
}
