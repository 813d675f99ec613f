/**
 * The plugin's setup values and their parsing (cdmenu.cc): the three
 * static fields of cMenuCDPlayer and SetupParse, which assigns them from
 * name/value pairs of VDR's setup file.
 */
module CdMenu {
  import opened CLib

  const MAXCDSPEED: string := "MaxCDSpeed"
  const ENABLEPARANOIA: string := "EnableParanoia"
  const ENABLEMAINMENU: string := "EnableMainMenu"

  /** A setup name SetupParse recognises (compared as strcasecmp does). */
  predicate IsSetupName(name: string)
  {
    StrCaseEqual(name, MAXCDSPEED) || StrCaseEqual(name, ENABLEPARANOIA) || StrCaseEqual(name, ENABLEMAINMENU)
  }

  /** No name is recognised as two different settings, so the order of the tests does not matter. */
  lemma {:induction false} SetupNamesExclusive(name: string)
    ensures !(StrCaseEqual(name, MAXCDSPEED) && StrCaseEqual(name, ENABLEPARANOIA))
    ensures !(StrCaseEqual(name, MAXCDSPEED) && StrCaseEqual(name, ENABLEMAINMENU))
    ensures !(StrCaseEqual(name, ENABLEPARANOIA) && StrCaseEqual(name, ENABLEMAINMENU))
  {
    StrCaseEqualMeans(name, MAXCDSPEED);
    StrCaseEqualMeans(name, ENABLEPARANOIA);
    StrCaseEqualMeans(name, ENABLEMAINMENU);
    // "EnableParanoia" and "EnableMainMenu" differ at position 6, even after tolower
    assert ToLower(ENABLEPARANOIA[6]) != ToLower(ENABLEMAINMENU[6]);
  }

  /** The static members mMaxSpeed, mUseParanoia and mShowMainMenu (C ints, booleans as 0/1). */
  class Settings {
    var maxSpeed: int
    var useParanoia: int
    var showMainMenu: int

    /**
     * The static initialisers: maximum speed 8, main menu entry shown,
     * paranoia on exactly when the plugin is built with USE_PARANOIA.
     */
    constructor (builtWithParanoia: bool)
      ensures maxSpeed == 8 && showMainMenu == 1
      ensures useParanoia == if builtWithParanoia then 1 else 0
    {
      maxSpeed := 8;
      showMainMenu := 1;
      useParanoia := if builtWithParanoia then 1 else 0;
    }

    /**
     * SetupParse: a recognised name sets its field from the parsed value,
     * the maximum speed clamped to at least 1, and returns true; any other
     * name changes nothing and returns false.
     */
    method SetupParse(name: string, value: string) returns (ok: bool)
      modifies this
      ensures ok <==> IsSetupName(name)
      ensures StrCaseEqual(name, MAXCDSPEED) ==>
        maxSpeed == (if Atoi(value) < 1 then 1 else Atoi(value)) &&
        useParanoia == old(useParanoia) && showMainMenu == old(showMainMenu)
      ensures StrCaseEqual(name, ENABLEPARANOIA) ==>
        useParanoia == Atoi(value) && maxSpeed == old(maxSpeed) && showMainMenu == old(showMainMenu)
      ensures StrCaseEqual(name, ENABLEMAINMENU) ==>
        showMainMenu == Atoi(value) && maxSpeed == old(maxSpeed) && useParanoia == old(useParanoia)
      ensures !ok ==>
        maxSpeed == old(maxSpeed) && useParanoia == old(useParanoia) && showMainMenu == old(showMainMenu)
    {
      SetupNamesExclusive(name);
      if StrCaseEqual(name, MAXCDSPEED) {
        maxSpeed := Atoi(value);
        if maxSpeed < 1 {
          maxSpeed := 1;
        }
      } else if StrCaseEqual(name, ENABLEPARANOIA) {
        useParanoia := Atoi(value);
      } else if StrCaseEqual(name, ENABLEMAINMENU) {
        showMainMenu := Atoi(value);
      } else {
        return false;
      }
      return true;
    }
  }
}
