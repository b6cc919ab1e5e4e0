/** Access rules of a vault and how they decide a role (crates/mb-core/src/permissions.rs). */
module Permissions {
  import opened Strings

  datatype Role = Owner | Editor | Viewer | NoAccess

  datatype Member = Member(user: string, role: Role)

  datatype Rule = Rule(path: string, grants: map<string, Role>)

  datatype Access = Access(members: map<string, Role>, rules: seq<Rule>)

  datatype AclError = DuplicateMember(user: string) | EmptyRule(path: string) | DuplicateRule(path: string)

  datatype AccessResult = Built(access: Access) | Rejected(error: AclError)

  // ---------------------------------------------------------------- paths

  /** `NotePath::parse`, on text that is already normalized: relative, and without a segment that could escape. */
  predicate IsNotePath(path: string) {
    && path != "" && path[0] != '/' && Last(path) != '/' && '\\' !in path && '\0' !in path
    && forall segment :: segment in SplitOn(path, '/') ==> segment != "" && segment != "." && segment != ".."
  }

  /** A rule for a path covers that note and everything below that folder. */
  predicate Matches(path: string, note: string) {
    note == path || (path <= note && "/" <= note[|path|..])
  }

  function Segments(path: string): seq<string> {
    SplitOn(path, '/')
  }

  function Specificity(path: string): nat {
    |Segments(path)|
  }

  lemma OneSegment(path: string)
    requires Find(path, '/') == |path|
    ensures Segments(path) == [path]
  {
  }

  lemma SegmentsUnfold(path: string, n: nat)
    requires n == Find(path, '/') < |path|
    ensures Segments(path) == [path[..n]] + Segments(path[n + 1..])
  {
  }

  lemma {:induction false} SegmentsOfFolder(path: string, rest: string)
    ensures Segments(path + "/" + rest) == Segments(path) + Segments(rest)
    decreases |path|
  {
    var whole := path + "/" + rest;
    var n := Find(path, '/');
    FindIs(whole, '/', n);
    SegmentsUnfold(whole, n);
    if n == |path| {
      OneSegment(path);
      assert whole[..n] == path && whole[n + 1..] == rest;
    } else {
      SegmentsUnfold(path, n);
      assert whole[..n] == path[..n] && whole[n + 1..] == path[n + 1..] + "/" + rest;
      SegmentsOfFolder(path[n + 1..], rest);
      Associate([path[..n]], Segments(path[n + 1..]), Segments(rest));
    }
  }

  /** Segments tell where a path goes on. */
  lemma {:induction false} PrefixOfSegments(path: string, note: string)
    requires Segments(path) <= Segments(note)
    ensures Matches(path, note)
    decreases |path|
  {
    var n, m := Find(path, '/'), Find(note, '/');
    if n == |path| { OneSegment(path); } else { SegmentsUnfold(path, n); }
    if m == |note| { OneSegment(note); } else { SegmentsUnfold(note, m); }
    assert Segments(path)[0] == Segments(note)[0];
    assert Segments(path)[0] == path[..n] && Segments(note)[0] == note[..m];
    if n == |path| {
      assert path == note[..m];
    } else {
      assert Segments(path)[1..] == Segments(path[n + 1..]) && |Segments(path)| >= 2;
      assert m < |note| && Segments(note)[1..] == Segments(note[m + 1..]);
      PrefixOfSegments(path[n + 1..], note[m + 1..]);
      SameStart(path, note, n);
    }
  }

  lemma SameStart(path: string, note: string, n: nat)
    requires n < |path| && n < |note| && path[..n + 1] == note[..n + 1]
    requires Matches(path[n + 1..], note[n + 1..])
    ensures Matches(path, note)
  {
    assert path == path[..n + 1] + path[n + 1..] && note == note[..n + 1] + note[n + 1..];
    if path[n + 1..] != note[n + 1..] {
      assert note[|path|..] == note[n + 1..][|path[n + 1..]|..];
    }
  }

  /** Matching is a prefix of segments: no name is cut in the middle. */
  lemma MatchesIsSegmentPrefix(path: string, note: string)
    ensures Matches(path, note) <==> Segments(path) <= Segments(note)
  {
    if Segments(path) <= Segments(note) {
      PrefixOfSegments(path, note);
    }
    if Matches(path, note) && path != note {
      var rest := note[|path| + 1..];
      assert note == path + "/" + rest;
      SegmentsOfFolder(path, rest);
    }
  }

  /** Two paths that match one note and are equally specific are the same path. */
  lemma EquallySpecificIsEqual(p: string, q: string, note: string)
    requires Matches(p, note) && Matches(q, note) && Specificity(p) == Specificity(q)
    ensures p == q
  {
    MatchesIsSegmentPrefix(p, note);
    MatchesIsSegmentPrefix(q, note);
    assert Segments(p) == Segments(q);
    MatchesIsSegmentPrefix(p, q);
    MatchesIsSegmentPrefix(q, p);
  }

  // ---------------------------------------------------------------- building an access list

  predicate DistinctUsers(members: seq<Member>) {
    forall i, j :: 0 <= i < j < |members| ==> members[i].user != members[j].user
  }

  predicate DistinctPaths(rules: seq<Rule>) {
    forall i, j :: 0 <= i < j < |rules| ==> rules[i].path != rules[j].path
  }

  predicate NoEmptyRule(rules: seq<Rule>) {
    forall i :: 0 <= i < |rules| ==> rules[i].grants != map[]
  }

  /** The first rule that is refused, and why. */
  predicate FirstBadRule(rules: seq<Rule>, i: nat, error: AclError)
    requires i < |rules|
  {
    && NoEmptyRule(rules[..i]) && DistinctPaths(rules[..i])
    && (if rules[i].grants == map[] then error == EmptyRule(rules[i].path)
        else error == DuplicateRule(rules[i].path) && exists j :: 0 <= j < i && rules[j].path == rules[i].path)
  }

  /** `Access::new`. */
  method NewAccess(members: seq<Member>, rules: seq<Rule>) returns (r: AccessResult)
    ensures r.Built? <==> DistinctUsers(members) && NoEmptyRule(rules) && DistinctPaths(rules)
    ensures r.Built? ==> r.access.rules == rules
    ensures r.Built? ==> forall user, role :: (user in r.access.members && r.access.members[user] == role)
                                         <==> Member(user, role) in members
    ensures r.Rejected? && r.error.DuplicateMember? ==>
      exists i :: 0 <= i < |members| && DistinctUsers(members[..i]) && members[i].user == r.error.user
                  && exists j :: 0 <= j < i && members[j].user == members[i].user
    ensures r.Rejected? && !r.error.DuplicateMember? ==>
      DistinctUsers(members) && exists i :: 0 <= i < |rules| && FirstBadRule(rules, i, r.error)
  {
    var roles: map<string, Role> := map[];
    for i := 0 to |members|
      invariant DistinctUsers(members[..i])
      invariant forall user, role :: (user in roles && roles[user] == role) <==> Member(user, role) in members[..i]
    {
      var member := members[i];
      if member.user in roles {
        assert Member(member.user, roles[member.user]) in members[..i];
        assert members[i].user == member.user;
        return Rejected(DuplicateMember(member.user));
      }
      MemberIsNew(members, i, roles);
      roles := roles[member.user := member.role];
      assert members[..i + 1] == members[..i] + [member];
    }
    assert members[..|members|] == members;
    var paths: set<string> := {};
    for i := 0 to |rules|
      invariant NoEmptyRule(rules[..i]) && DistinctPaths(rules[..i])
      invariant forall p :: p in paths <==> exists j :: 0 <= j < i && rules[j].path == p
    {
      if rules[i].grants == map[] {
        assert FirstBadRule(rules, i, EmptyRule(rules[i].path));
        return Rejected(EmptyRule(rules[i].path));
      }
      if rules[i].path in paths {
        assert FirstBadRule(rules, i, DuplicateRule(rules[i].path));
        return Rejected(DuplicateRule(rules[i].path));
      }
      paths := paths + {rules[i].path};
    }
    assert rules[..|rules|] == rules;
    return Built(Access(roles, rules));
  }

  lemma MemberIsNew(members: seq<Member>, i: nat, roles: map<string, Role>)
    requires i < |members| && members[i].user !in roles
    requires forall user, role :: (user in roles && roles[user] == role) <==> Member(user, role) in members[..i]
    ensures forall j :: 0 <= j < i ==> members[j].user != members[i].user
  {
    forall j | 0 <= j < i ensures members[j].user != members[i].user {
      assert members[..i][j] == members[j];
      assert Member(members[j].user, members[j].role) in members[..i];
    }
  }

  // ---------------------------------------------------------------- resolving a role

  predicate Applies(rule: Rule, user: string, note: string) {
    user in rule.grants && Matches(rule.path, note)
  }

  /** What the loop of `effective_role` returns from some point on. */
  function Resolve(rules: seq<Rule>, user: string, note: string, role: Role, best: nat): Role {
    if rules == [] then role
    else if !Applies(rules[0], user, note) then Resolve(rules[1..], user, note, role, best)
    else if rules[0].grants[user] == NoAccess then NoAccess
    else if Specificity(rules[0].path) > best then
      Resolve(rules[1..], user, note, rules[0].grants[user], Specificity(rules[0].path))
    else Resolve(rules[1..], user, note, role, best)
  }

  function MemberRole(access: Access, user: string): Role {
    if user in access.members then access.members[user] else NoAccess
  }

  function EffectiveRole(access: Access, user: string, note: string): Role {
    Resolve(access.rules, user, note, MemberRole(access, user), 0)
  }

  method RunEffectiveRole(access: Access, user: string, note: string) returns (r: Role)
    ensures r == EffectiveRole(access, user, note)
  {
    var role := if user in access.members then access.members[user] else NoAccess;
    var best := 0;
    for i := 0 to |access.rules|
      invariant Resolve(access.rules[i..], user, note, role, best) == EffectiveRole(access, user, note)
    {
      var rule := access.rules[i];
      assert access.rules[i..][1..] == access.rules[i + 1..];
      if user !in rule.grants {
        continue;
      }
      var grant := rule.grants[user];
      if !Matches(rule.path, note) {
        continue;
      }
      if grant == NoAccess {
        return NoAccess;
      }
      var specificity := Specificity(rule.path);
      if specificity > best {
        role := grant;
        best := specificity;
      }
    }
    return role;
  }

  predicate Denied(rules: seq<Rule>, user: string, note: string) {
    exists rule :: rule in rules && Applies(rule, user, note) && rule.grants[user] == NoAccess
  }

  /** The rule applies, and none that applies has more segments. */
  predicate MostSpecific(rules: seq<Rule>, user: string, note: string, rule: Rule) {
    && rule in rules && Applies(rule, user, note)
    && forall other :: other in rules && Applies(other, user, note) ==> Specificity(other.path) <= Specificity(rule.path)
  }

  /** Denial is final; else the most specific rule that applies decides; else the membership does. */
  ghost predicate IsEffective(rules: seq<Rule>, user: string, note: string, otherwise: Role, r: Role) {
    if Denied(rules, user, note) then r == NoAccess
    else if exists rule :: rule in rules && Applies(rule, user, note) then
      exists rule :: MostSpecific(rules, user, note, rule) && rule.grants[user] == r
    else r == otherwise
  }

  /** What the loop returns when nothing is denied: the most specific grant above `best`, or what it holds already. */
  ghost predicate Improves(rules: seq<Rule>, user: string, note: string, role: Role, best: nat, r: Role) {
    || ((forall rule :: rule in rules && Applies(rule, user, note) ==> Specificity(rule.path) <= best) && r == role)
    || (exists rule :: MostSpecific(rules, user, note, rule) && Specificity(rule.path) > best && rule.grants[user] == r)
  }

  lemma {:induction false} ResolveImproves(rules: seq<Rule>, user: string, note: string, role: Role, best: nat)
    ensures Denied(rules, user, note) ==> Resolve(rules, user, note, role, best) == NoAccess
    ensures !Denied(rules, user, note) ==> Improves(rules, user, note, role, best, Resolve(rules, user, note, role, best))
  {
    if rules != [] {
      var first, more := rules[0], rules[1..];
      assert rules == [first] + more;
      if !Applies(first, user, note) {
        ResolveImproves(more, user, note, role, best);
        if !Denied(rules, user, note) {
          assert !Denied(more, user, note);
          SkipFirst(first, more, user, note, role, best, Resolve(more, user, note, role, best));
        }
      } else if first.grants[user] != NoAccess {
        var better := Specificity(first.path) > best;
        var role' := if better then first.grants[user] else role;
        var best' := if better then Specificity(first.path) else best;
        ResolveImproves(more, user, note, role', best');
        if !Denied(rules, user, note) {
          assert !Denied(more, user, note);
          TakeFirst(first, more, user, note, role, best, Resolve(more, user, note, role', best'));
        }
      }
    }
  }

  lemma SkipFirst(first: Rule, more: seq<Rule>, user: string, note: string, role: Role, best: nat, r: Role)
    requires !Applies(first, user, note) && Improves(more, user, note, role, best, r)
    ensures Improves([first] + more, user, note, role, best, r)
  {
    if rule :| MostSpecific(more, user, note, rule) && Specificity(rule.path) > best && rule.grants[user] == r {
      assert MostSpecific([first] + more, user, note, rule);
    }
  }

  lemma TakeFirst(first: Rule, more: seq<Rule>, user: string, note: string, role: Role, best: nat, r: Role)
    requires Applies(first, user, note)
    requires var better := Specificity(first.path) > best;
      Improves(more, user, note, if better then first.grants[user] else role,
               if better then Specificity(first.path) else best, r)
    ensures Improves([first] + more, user, note, role, best, r)
  {
    var rules := [first] + more;
    var best' := if Specificity(first.path) > best then Specificity(first.path) else best;
    if rule :| MostSpecific(more, user, note, rule) && Specificity(rule.path) > best' && rule.grants[user] == r {
      assert MostSpecific(rules, user, note, rule);
    } else if Specificity(first.path) > best {
      assert MostSpecific(rules, user, note, first);
    }
  }

  /** The loop computes the declarative rule. */
  lemma RoleIsEffective(access: Access, user: string, note: string)
    ensures IsEffective(access.rules, user, note, MemberRole(access, user), EffectiveRole(access, user, note))
  {
    ResolveImproves(access.rules, user, note, MemberRole(access, user), 0);
  }

  /** With one rule per path, the declarative rule leaves one answer, and the order of the rules does not matter. */
  lemma EffectiveIsUnique(a: seq<Rule>, b: seq<Rule>, user: string, note: string, otherwise: Role, r: Role, q: Role)
    requires DistinctPaths(a) && forall rule :: rule in a <==> rule in b
    requires IsEffective(a, user, note, otherwise, r) && IsEffective(b, user, note, otherwise, q)
    ensures r == q
  {
    if !Denied(a, user, note) && exists rule :: rule in a && Applies(rule, user, note) {
      var first :| MostSpecific(a, user, note, first) && first.grants[user] == r;
      var second :| MostSpecific(b, user, note, second) && second.grants[user] == q;
      EquallySpecificIsEqual(first.path, second.path, note);
      var i :| 0 <= i < |a| && a[i] == first;
      var j :| 0 <= j < |a| && a[j] == second;
      assert i == j;
    }
  }

  /** Writing the rules in another order changes nobody's role. */
  lemma OrderDoesNotMatter(access: Access, rules: seq<Rule>, user: string, note: string)
    requires DistinctPaths(access.rules) && multiset(rules) == multiset(access.rules)
    ensures EffectiveRole(access.(rules := rules), user, note) == EffectiveRole(access, user, note)
  {
    forall rule ensures rule in access.rules <==> rule in rules {
      assert rule in multiset(rules) <==> rule in multiset(access.rules);
    }
    RoleIsEffective(access, user, note);
    RoleIsEffective(access.(rules := rules), user, note);
    EffectiveIsUnique(access.rules, rules, user, note, MemberRole(access, user), EffectiveRole(access, user, note),
                      EffectiveRole(access.(rules := rules), user, note));
  }

  /** A denial on a folder cannot be reopened below it. */
  lemma DenialIsFinal(access: Access, user: string, note: string, rule: Rule)
    requires rule in access.rules && user in rule.grants && rule.grants[user] == NoAccess
    requires Segments(rule.path) <= Segments(note)
    ensures EffectiveRole(access, user, note) == NoAccess
  {
    PrefixOfSegments(rule.path, note);
    RoleIsEffective(access, user, note);
  }
}
