/**
 Who may see an agent or a skill: the per-item predicates, the query filter that must agree with them,
 and what department visibility means in the department tree.
 */
module ResourceAccess {
  import opened Common
  import opened Departments

  type UserId = nat

  /** The text of a user identifier: canonical, another spelling of the same identifier, or none at all. */
  datatype IdText = Canonical(id: UserId) | Variant(id: UserId) | Garbage

  function ParseId(text: IdText): Option<UserId> {
    match text
    case Canonical(id) => Some(id)
    case Variant(id) => Some(id)
    case Garbage => None
  }

  datatype Context = Context(userId: IdText, role: string, departmentId: Option<DeptId>, ancestors: seq<DeptId>) {
    predicate IsAdmin() { Lower(Strip(role)) == "admin" }
  }

  datatype Agent = Agent(owner: Option<UserId>, accessLevel: Option<string>, department: Option<DeptId>)

  datatype AccessType = Read | Execute | Manage

  // ---------------------------------------------------------------- agents

  /** normalize_agent_access_level */
  function NormalizeLevel(raw: Option<string>): string {
    var level := Lower(Strip(if raw.None? || raw.value == "" then "private" else raw.value));
    if level == "team" then "department"
    else if level == "private" || level == "department" || level == "public" then level
    else "private"
  }

  /** The owner's identifier is printed in canonical form and compared with the user's text. */
  predicate Owns(owner: Option<UserId>, userId: IdText) {
    owner.Some? && userId == Canonical(owner.value)
  }

  predicate CanReadAgent(agent: Agent, context: Context) {
    if context.IsAdmin() then true
    else if Owns(agent.owner, context.userId) then true
    else
      var level := NormalizeLevel(agent.accessLevel);
      if level == "public" then true
      else if level == "department" then agent.department.Some? && agent.department.value in context.ancestors
      else false
  }

  predicate CanManageAgent(agent: Agent, context: Context) {
    context.IsAdmin() || Owns(agent.owner, context.userId)
  }

  predicate Allowed(agent: Agent, context: Context, access: AccessType) {
    if access.Manage? then CanManageAgent(agent, context) else CanReadAgent(agent, context)
  }

  /** The condition that _query_for_agent_access puts on a row; a null column equals nothing. */
  predicate RowMatches(agent: Agent, context: Context, access: AccessType) {
    if context.IsAdmin() then true
    else
      match ParseId(context.userId)
      case None => false
      case Some(user) =>
        || agent.owner == Some(user)
        || (!access.Manage? &&
            (|| agent.accessLevel == Some("public")
             || (&& context.ancestors != []
                 && (agent.accessLevel == Some("department") || agent.accessLevel == Some("team"))
                 && agent.department.Some? && agent.department.value in context.ancestors)))
  }

  function QueryForAgentAccess(agents: seq<Agent>, context: Context, access: AccessType): seq<Agent> {
    Filter((a: Agent) => RowMatches(a, context, access), agents)
  }

  /** The stored text is one of the levels the query names, or means private to the predicate. */
  predicate CanonicalLevel(raw: Option<string>) {
    raw == Some("public") || raw == Some("department") || raw == Some("team") || NormalizeLevel(raw) == "private"
  }

  lemma LevelNames()
    ensures NormalizeLevel(Some("public")) == "public"
    ensures NormalizeLevel(Some("department")) == "department"
    ensures NormalizeLevel(Some("team")) == "department"
    ensures NormalizeLevel(Some("private")) == "private"
  {
    hide Strip, Lower;
    Unchanged("public");
    Unchanged("department");
    Unchanged("team");
    Unchanged("private");
  }

  lemma Unchanged(s: string)
    requires forall i :: 0 <= i < |s| ==> 'a' <= s[i] <= 'z'
    ensures Lower(Strip(s)) == s
  {
    StripStripped(s);
    assert Lower(s) == s;
  }

  lemma RowAgrees(agent: Agent, context: Context, access: AccessType)
    requires context.userId.Canonical? || context.IsAdmin()
    requires CanonicalLevel(agent.accessLevel)
    ensures RowMatches(agent, context, access) <==> Allowed(agent, context, access)
  {
    LevelNames();
    hide NormalizeLevel;
  }

  /** For canonical identifiers and levels the query returns exactly the agents the predicate accepts. */
  lemma {:induction false} QueryRefinesPredicate(agents: seq<Agent>, context: Context, access: AccessType)
    requires context.userId.Canonical?
    requires forall a :: a in agents ==> CanonicalLevel(a.accessLevel)
    ensures QueryForAgentAccess(agents, context, access) == Filter((a: Agent) => Allowed(a, context, access), agents)
  {
    forall a | a in agents
      ensures RowMatches(a, context, access) <==> Allowed(a, context, access)
    {
      RowAgrees(a, context, access);
    }
    FilterAgrees((a: Agent) => RowMatches(a, context, access), (a: Agent) => Allowed(a, context, access), agents);
  }

  /** A context in which only the access level decides. */
  const STRANGER := Context(Canonical(0), "user", Some(0), [0])

  lemma StrangerIsNoAdmin()
    ensures !STRANGER.IsAdmin()
  {
    hide Strip, Lower;
    Unchanged("user");
    assert "user"[0] != "admin"[0];
  }

  /**
   The stored levels on which query and predicate agree for every canonical user are exactly the
   canonical ones: a level that only normalises to a visible one is found by the predicate alone.
   */
  lemma AgreementNeedsCanonicalLevel(level: Option<string>)
    ensures CanonicalLevel(level) <==>
      forall agent: Agent, context: Context :: agent.accessLevel == level && context.userId.Canonical? ==>
        (RowMatches(agent, context, Read) <==> CanReadAgent(agent, context))
  {
    if CanonicalLevel(level) {
      forall agent: Agent, context: Context | agent.accessLevel == level && context.userId.Canonical?
        ensures RowMatches(agent, context, Read) <==> CanReadAgent(agent, context)
      {
        RowAgrees(agent, context, Read);
      }
    } else {
      StrangerIsNoAdmin();
      var agent := Agent(Some(1), level, Some(0));
      assert !RowMatches(agent, STRANGER, Read) && CanReadAgent(agent, STRANGER);
    }
  }

  /** Likewise the user identifiers: any other spelling makes them disagree on some agent. */
  lemma AgreementNeedsCanonicalId(userId: IdText)
    ensures userId.Canonical? <==>
      forall agent: Agent, context: Context :: context.userId == userId && CanonicalLevel(agent.accessLevel) ==>
        (RowMatches(agent, context, Read) <==> CanReadAgent(agent, context))
  {
    LevelNames();
    StrangerIsNoAdmin();
    hide NormalizeLevel, Strip, Lower;
    if userId.Canonical? {
      forall agent: Agent, context: Context | context.userId == userId && CanonicalLevel(agent.accessLevel)
        ensures RowMatches(agent, context, Read) <==> CanReadAgent(agent, context)
      {
        RowAgrees(agent, context, Read);
      }
    } else {
      var context := STRANGER.(userId := userId);
      var own := Agent(ParseId(userId), Some("private"), None);
      var public := Agent(None, Some("public"), None);
      assert context.role == STRANGER.role;
      assert userId.Variant? ==> RowMatches(own, context, Read) && !CanReadAgent(own, context);
      assert userId.Garbage? ==> !RowMatches(public, context, Read) && CanReadAgent(public, context);
    }
  }

  // ---------------------------------------------------------------- departments

  /** build_agent_access_context_for_user_id, once the user's department is known. */
  method BuildContext(t: Table, userId: IdText, role: string, department: Option<DeptId>) returns (context: Context)
    ensures context == Context(userId, role, department, Ancestors(t, department))
  {
    var ancestors := GetDepartmentAncestorIds(t, department);
    context := Context(userId, role, department, ancestors);
  }

  /** What a stored level says, white space and case aside; none says private. */
  predicate Says(raw: Option<string>, level: string) {
    raw.Some? && Lower(Strip(raw.value)) == level
  }

  /**
   An agent shows to admins and its owner; to everyone when its level is public; and when that is department or team, to
   the users whose department lies in the subtree of the agent's.
   */
  lemma AgentVisibility(t: Table, agent: Agent, context: Context)
    requires KeysUnique(t) && context.ancestors == Ancestors(t, context.departmentId)
    ensures CanReadAgent(agent, context) <==>
      || Says(Some(context.role), "admin")
      || (agent.owner.Some? && context.userId == Canonical(agent.owner.value))
      || Says(agent.accessLevel, "public")
      || (&& (Says(agent.accessLevel, "department") || Says(agent.accessLevel, "team"))
          && agent.department.Some? && context.departmentId.Some?
          && context.departmentId.value in Subtree(t, agent.department))
  {
    if agent.department.Some? && context.departmentId.Some? {
      Duality(t, agent.department.value, context.departmentId.value);
    }
    LevelsRead(agent.accessLevel);
    hide NormalizeLevel, Says, Ancestors, Subtree;
  }

  /** Which stored texts make an agent public or visible to departments. */
  lemma LevelsRead(raw: Option<string>)
    ensures NormalizeLevel(raw) == "public" <==> Says(raw, "public")
    ensures NormalizeLevel(raw) == "department" <==> Says(raw, "department") || Says(raw, "team")
  {
    EmptyLevel();
    hide Strip, Lower;
    assert "private"[1] == 'r' && "public"[1] == 'u' && "department"[0] == 'd' && "team"[0] == 't';
  }

  lemma EmptyLevel()
    ensures Lower(Strip("")) == "" && Lower(Strip("private")) == "private"
  {
    Unchanged("");
    Unchanged("private");
  }

  /** Only admins and the owner may change an agent. */
  lemma ManagementIsOwnership(agent: Agent, context: Context)
    ensures Allowed(agent, context, Manage) <==>
            Says(Some(context.role), "admin") || (agent.owner.Some? && context.userId == Canonical(agent.owner.value))
    ensures Allowed(agent, context, Execute) <==> CanReadAgent(agent, context)
  {
  }

  // ---------------------------------------------------------------- skills

  predicate CanReadSkill(skill: Agent, context: Context) {
    if context.IsAdmin() then true
    else if Owns(skill.owner, context.userId) then true
    else
      var level := Lower(Strip(if skill.accessLevel.None? then "" else skill.accessLevel.value));
      if level == "public" then true
      else if level == "team" then skill.department.Some? && skill.department.value in context.ancestors
      else false
  }

  /**
   A skill shows to admins and its owner; to everyone when its level is public; and when that is team, to the whole
   subtree of its department.
   */
  lemma SkillVisibility(t: Table, skill: Agent, context: Context)
    requires KeysUnique(t) && context.ancestors == Ancestors(t, context.departmentId)
    ensures CanReadSkill(skill, context) <==>
      || Says(Some(context.role), "admin")
      || (skill.owner.Some? && context.userId == Canonical(skill.owner.value))
      || Says(skill.accessLevel, "public")
      || (&& Says(skill.accessLevel, "team")
          && skill.department.Some? && context.departmentId.Some?
          && context.departmentId.value in Subtree(t, skill.department))
  {
    if skill.department.Some? && context.departmentId.Some? {
      Duality(t, skill.department.value, context.departmentId.value);
    }
    EmptyLevel();
    hide Strip, Lower, Ancestors, Subtree;
  }

  /**
   The departments a user may share to: whatever lies at or below a department they manage, and
   their own department when they manage none.
   */
  method ManageableDepartments(t: Table, managedRoots: seq<DeptId>, own: Option<DeptId>) returns (ids: set<DeptId>)
    requires KeysUnique(t)
    ensures forall d :: d in ids <==>
      if managedRoots == [] then own == Some(d) else exists r :: r in managedRoots && IsAncestor(t, r, d)
  {
    ids := {};
    for i := 0 to |managedRoots|
      invariant forall d :: d in ids <==> exists r :: r in managedRoots[..i] && IsAncestor(t, r, d)
      invariant i > 0 ==> ids != {}
    {
      var root := managedRoots[i];
      var subtree := GetDepartmentSubtreeIds(t, Some(root));
      forall d
        ensures d in subtree <==> IsAncestor(t, root, d)
      {
        SubtreeExact(t, root, d);
        UpIffDown(t, root, d);
      }
      assert Above(t, root, 0) == Some(root);
      assert root in subtree;
      ids := ids + set d | d in subtree;
      assert forall r :: r in managedRoots[..i + 1] <==> r in managedRoots[..i] || r == root;
    }
    assert managedRoots[..|managedRoots|] == managedRoots;
    if own.Some? && ids == {} {
      ids := {own.value};
    }
  }
}
