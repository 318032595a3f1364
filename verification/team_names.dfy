/**
  `getShortMatchTeamNames` and `getMatchTeamNames`: the home part, the teams
  separator and the away part, joined by single spaces, with each team's flag
  on the outside when flags are displayed. The short form shows team codes, the
  long form the country names of the codes.
*/
module TeamNames {
  import opened Text
  import opened Constants
  import opened Country

  /**
    The chunks pushed in order: optionally the home flag, the home label, the
    separator, the away label, optionally the away flag.
  */
  function TeamChunks(t: CountryTables, displayFlags: bool, homeCode: string, awayCode: string, homeLabel: string, awayLabel: string)
    : (r: seq<string>)
    ensures |r| == if displayFlags then 5 else 3
    ensures r[|r| / 2] == TeamsSeparator
    ensures r[|r| / 2 - 1] == homeLabel && r[|r| / 2 + 1] == awayLabel
    ensures displayFlags ==> r[0] == GetCountryFlag(t, homeCode) && r[4] == GetCountryFlag(t, awayCode)
  {
    var middle := [homeLabel, TeamsSeparator, awayLabel];
    if displayFlags then [GetCountryFlag(t, homeCode)] + middle + [GetCountryFlag(t, awayCode)] else middle
  }

  /** `getShortMatchTeamNames`: the chunks with the codes as labels. */
  function ShortMatchTeamNames(t: CountryTables, displayFlags: bool, homeCode: string, awayCode: string): string {
    Join(TeamChunks(t, displayFlags, homeCode, awayCode, homeCode, awayCode), ' ')
  }

  /** `getMatchTeamNames`: the chunks with the country names (English) as labels. */
  function MatchTeamNames(t: CountryTables, displayFlags: bool, homeCode: string, awayCode: string): string {
    Join(TeamChunks(t, displayFlags, homeCode, awayCode, GetCountryName(t, homeCode), GetCountryName(t, awayCode)), ' ')
  }

  /** The joined chunks spelled out: without flags "H - A", with flags "fH H - A fA". */
  lemma TeamNamesLayout(t: CountryTables, displayFlags: bool, homeCode: string, awayCode: string)
    ensures !displayFlags ==> ShortMatchTeamNames(t, displayFlags, homeCode, awayCode) == homeCode + " - " + awayCode
    ensures displayFlags ==>
              ShortMatchTeamNames(t, displayFlags, homeCode, awayCode)
                == GetCountryFlag(t, homeCode) + " " + homeCode + " - " + awayCode + " " + GetCountryFlag(t, awayCode)
    ensures !displayFlags ==>
              MatchTeamNames(t, displayFlags, homeCode, awayCode)
                == GetCountryName(t, homeCode) + " - " + GetCountryName(t, awayCode)
    ensures displayFlags ==>
              MatchTeamNames(t, displayFlags, homeCode, awayCode)
                == GetCountryFlag(t, homeCode) + " " + GetCountryName(t, homeCode) + " - "
                   + GetCountryName(t, awayCode) + " " + GetCountryFlag(t, awayCode)
  {
    JoinLayout(t, displayFlags, homeCode, awayCode, homeCode, awayCode);
    JoinLayout(t, displayFlags, homeCode, awayCode, GetCountryName(t, homeCode), GetCountryName(t, awayCode));
  }

  lemma JoinLayout(t: CountryTables, displayFlags: bool, homeCode: string, awayCode: string, homeLabel: string, awayLabel: string)
    ensures !displayFlags ==>
              Join(TeamChunks(t, displayFlags, homeCode, awayCode, homeLabel, awayLabel), ' ') == homeLabel + " - " + awayLabel
    ensures displayFlags ==>
              Join(TeamChunks(t, displayFlags, homeCode, awayCode, homeLabel, awayLabel), ' ')
                == GetCountryFlag(t, homeCode) + " " + homeLabel + " - " + awayLabel + " " + GetCountryFlag(t, awayCode)
  {
    var c := TeamChunks(t, displayFlags, homeCode, awayCode, homeLabel, awayLabel);
    if displayFlags {
      var f, g := GetCountryFlag(t, homeCode), GetCountryFlag(t, awayCode);
      assert c == [f, homeLabel, TeamsSeparator, awayLabel, g];
      JoinFive(f, homeLabel, TeamsSeparator, awayLabel, g);
      assert f + " " + homeLabel + " " + TeamsSeparator + " " + awayLabel + " " + g
          == f + " " + homeLabel + " - " + awayLabel + " " + g;
    } else {
      JoinThree(homeLabel, TeamsSeparator, awayLabel);
      assert homeLabel + " " + TeamsSeparator + " " + awayLabel == homeLabel + " - " + awayLabel;
    }
  }

  lemma JoinThree(a: string, b: string, c: string)
    ensures Join([a, b, c], ' ') == a + " " + b + " " + c
  {
    assert [a, b, c][1..] == [b, c];
    assert [b, c][1..] == [c];
    assert Join([b, c], ' ') == b + " " + c;
    assert a + " " + (b + " " + c) == a + " " + b + " " + c;
  }

  lemma JoinFive(a: string, b: string, c: string, d: string, e: string)
    ensures Join([a, b, c, d, e], ' ') == a + " " + b + " " + c + " " + d + " " + e
  {
    assert [a, b, c, d, e][1..] == [b, c, d, e];
    assert [b, c, d, e][1..] == [c, d, e];
    JoinThree(c, d, e);
    assert Join([b, c, d, e], ' ') == b + " " + (c + " " + d + " " + e);
    assert a + " " + (b + " " + (c + " " + d + " " + e)) == a + " " + b + " " + c + " " + d + " " + e;
  }

  /** When the library names every code by itself, the long form is the short form. */
  lemma NamesCoincideWithCodes(t: CountryTables, displayFlags: bool, homeCode: string, awayCode: string)
    requires GetCountryName(t, homeCode) == homeCode && GetCountryName(t, awayCode) == awayCode
    ensures MatchTeamNames(t, displayFlags, homeCode, awayCode) == ShortMatchTeamNames(t, displayFlags, homeCode, awayCode)
  {
  }

  /** A flag never contains a space: every flag character is at least U+1F1E5. */
  lemma FlagHasNoSpace(t: CountryTables, code: string)
    ensures ' ' !in GetCountryFlag(t, code)
  {
    var f := GetCountryFlag(t, code);
    forall i | 0 <= i < |f| ensures f[i] != ' ' {
      assert f[i] as int >= RegionalOffset;
    }
  }

  /**
    For codes without spaces (team codes are at most three characters), splitting
    the short form on spaces gives back the chunks: 3, or 5 with flags.
  */
  lemma ShortNamesSplit(t: CountryTables, displayFlags: bool, homeCode: string, awayCode: string)
    requires ' ' !in homeCode && ' ' !in awayCode
    ensures Split(ShortMatchTeamNames(t, displayFlags, homeCode, awayCode), ' ')
              == TeamChunks(t, displayFlags, homeCode, awayCode, homeCode, awayCode)
  {
    var c := TeamChunks(t, displayFlags, homeCode, awayCode, homeCode, awayCode);
    FlagHasNoSpace(t, homeCode);
    FlagHasNoSpace(t, awayCode);
    assert ' ' !in TeamsSeparator;
    SplitJoin(c, ' ');
  }
}
