/**
 * main/js/tcia-about-new.js: the rewrite of the TCIA about page. It guards
 * against a second load, classifies board members by substring, opens the
 * popup of the member whose card back was clicked, and draws the pillars
 * only on wide screens that have an `#org-pillars` element.
 */
module TciaAboutNew {
  import opened Wrappers
  import opened Strings
  import TeamBio
  import About

  /** The `window` flag that makes the script run once per page. */
  class PageWindow {
    var tciaInitialized: bool
    /** How many times the script body has run on this page. */
    var initRuns: nat

    constructor ()
      ensures !tciaInitialized && initRuns == 0
    {
      tciaInitialized := false;
      initRuns := 0;
    }

    /** Loading the script: skip when already initialised, else set the flag and run. */
    method LoadScript()
      modifies this
      ensures tciaInitialized
      ensures initRuns == if old(tciaInitialized) then old(initRuns) else old(initRuns) + 1
    {
      if tciaInitialized {
        return;
      }
      tciaInitialized := true;
      initRuns := initRuns + 1;
    }
  }

  /** However often the script is loaded into a fresh page, its body runs once. */
  method LoadRepeatedly(times: nat) returns (w: PageWindow)
    ensures w.initRuns == if times == 0 then 0 else 1
  {
    w := new PageWindow();
    var k := 0;
    while k < times
      invariant 0 <= k <= times
      invariant w.tciaInitialized <==> k > 0
      invariant w.initRuns == if k == 0 then 0 else 1
    {
      w.LoadScript();
      k := k + 1;
    }
  }

  /** `member.role.includes("Board Member")` */
  predicate IsBoardMember(role: string)
    ensures IsBoardMember(role) <==> exists i :: OccursAt(role, "Board Member", i)
  {
    Includes(role, "Board Member")
  }

  /**
   * The substring test accepts every role about.js accepts, and more:
   * "Former Board Member" is a board member here but not there.
   */
  lemma BoardMemberWidened(role: string)
    ensures About.IsBoardMember(role) ==> IsBoardMember(role)
    ensures IsBoardMember("Former Board Member") && !About.IsBoardMember("Former Board Member")
  {
    if About.IsBoardMember(role) {
      assert role[5..17] == "Board Member";
      IncludesSlice(role, 5, 17);
    }
    var f := "Former Board Member";
    assert f[7..19] == "Board Member";
    IncludesSlice(f, 7, 19);
  }

  /** A team card as built: whether it is styled as a board member, and its card-back index. */
  datatype MemberCard = MemberCard(boardMember: bool, backIndex: nat)

  /** `populateTeamMembers()`: one card per member, in order. */
  function PopulateTeamMembers(roles: seq<string>): (r: seq<MemberCard>)
    ensures |r| == |roles|
    ensures forall i :: 0 <= i < |r| ==> r[i].backIndex == i && (r[i].boardMember <==> IsBoardMember(roles[i]))
  {
    seq(|roles|, i requires 0 <= i < |roles| => MemberCard(IsBoardMember(roles[i]), i))
  }

  /** The member whose popup a click on card `k`'s back opens: `teamMembers[index]`. */
  function CardBackClick<M>(members: seq<M>, roles: seq<string>, k: nat): (m: M)
    requires |roles| == |members| && k < |members|
    ensures m == members[k]
  {
    members[PopulateTeamMembers(roles)[k].backIndex]
  }

  /**
   * The pillars drawn at start-up: none on mobile, none without an
   * `#org-pillars` element, otherwise all four in the colour cycle.
   */
  function CreatePillars(isMobile: bool, hasOrbit: bool): (r: seq<TeamBio.Pillar>)
    ensures isMobile || !hasOrbit ==> r == []
    ensures !isMobile && hasOrbit ==> |r| == 4 && forall i :: 0 <= i < 4 ==> r[i].color == TeamBio.TciaColors[i]
  {
    if isMobile || !hasOrbit then [] else TeamBio.Pillars(About.OrgPillars)
  }
}
