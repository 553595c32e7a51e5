/** The `Team` enumeration shared by the whole application. Its string
    values live in a module that is not part of this model, so the names
    below stand in for them; every property proved here only relies on the
    four names being pairwise different. */
module Teams {
  import opened Wrappers

  datatype Team = Developers | UXUI | Automations | AI

  /** The string a team is stored and compared as. */
  function TeamName(t: Team): string {
    match t
    case Developers => "Developers"
    case UXUI => "UXUI"
    case Automations => "Automations"
    case AI => "AI"
  }

  /** `Object.values(Team).includes(s)`, returning the member found. */
  function ParseTeam(s: string): (r: Option<Team>)
    ensures r.Some? ==> TeamName(r.value) == s
  {
    if s == TeamName(Developers) then Some(Developers)
    else if s == TeamName(UXUI) then Some(UXUI)
    else if s == TeamName(Automations) then Some(Automations)
    else if s == TeamName(AI) then Some(AI)
    else None
  }

  /** A string is recognised exactly when it is the name of a team, and then
      it is recognised as that team. */
  lemma ParseTeamIff(s: string, t: Team)
    ensures ParseTeam(s) == Some(t) <==> TeamName(t) == s
  {
  }

  lemma ParseTeamName(t: Team)
    ensures ParseTeam(TeamName(t)) == Some(t)
  {
    ParseTeamIff(TeamName(t), t);
  }
}
