/**
  Group-gated categories. A catalog category whose name starts with
  `<group>_` belongs to that group: only its members may open it, and for
  them the prefix is removed from the name shown on screen.

  The groups mapping of the access-code registry is a Python dict, which
  iterates in insertion order and whose first match decides both searches
  below, so it is modelled as an ordered sequence of (name, members) pairs.
  A registry without a "groups" entry behaves as the empty sequence.
 */
module Groups {
  import opened Text

  type UserId = int

  datatype Group = Group(name: string, members: seq<UserId>)

  /** The prefix that ties a category to the group called `name`. */
  function GroupPrefix(name: string): string
  {
    name + "_"
  }

  /** `category.startswith(f"{g.name}_")`. */
  predicate Gates(g: Group, category: string)
  {
    GroupPrefix(g.name) <= category
  }

  /** Group `i` is the first, in iteration order, whose prefix starts `category`. */
  ghost predicate IsFirstGating(groups: seq<Group>, category: string, i: int)
  {
    && 0 <= i < |groups|
    && Gates(groups[i], category)
    && forall j :: 0 <= j < i ==> !Gates(groups[j], category)
  }

  /**
    The visibility check of the view callback: walk the groups in order; the
    first whose prefix starts the category decides, by whether the user is
    one of its members; a category that no group prefixes is open to all.
   */
  function CanView(groups: seq<Group>, user: UserId, category: string): (ok: bool)
    ensures !ok ==> exists j :: 0 <= j < |groups| && Gates(groups[j], category) && user !in groups[j].members
    ensures (forall j :: 0 <= j < |groups| ==> user in groups[j].members) ==> ok
  {
    if groups == [] then true
    else if Gates(groups[0], category) then user in groups[0].members
    else CanView(groups[1..], user, category)
  }

  /** The first gating group alone decides: its membership is the answer. */
  lemma {:induction false} FirstGatingDecides(groups: seq<Group>, user: UserId, category: string, i: int)
    requires IsFirstGating(groups, category, i)
    ensures CanView(groups, user, category) <==> user in groups[i].members
  {
    if i > 0 {
      assert IsFirstGating(groups[1..], category, i - 1);
      FirstGatingDecides(groups[1..], user, category, i - 1);
    }
  }

  /** A category that no group prefixes is shown to every user. */
  lemma {:induction false} UngatedAlwaysVisible(groups: seq<Group>, user: UserId, category: string)
    requires forall j :: 0 <= j < |groups| ==> !Gates(groups[j], category)
    ensures CanView(groups, user, category)
  {
    if groups != [] {
      assert !Gates(groups[0], category);
      UngatedAlwaysVisible(groups[1..], user, category);
    }
  }

  /**
    A view is denied exactly when there is a first gating group and the user
    is not among its members.
   */
  lemma {:induction false} DeniedIff(groups: seq<Group>, user: UserId, category: string)
    ensures !CanView(groups, user, category) <==>
      exists i :: IsFirstGating(groups, category, i) && user !in groups[i].members
  {
    if exists i :: IsFirstGating(groups, category, i) {
      var i :| IsFirstGating(groups, category, i);
      FirstGatingDecides(groups, user, category, i);
    } else {
      forall j | 0 <= j < |groups|
        ensures !Gates(groups[j], category)
      {
        NoGatingBefore(groups, category, j);
      }
      UngatedAlwaysVisible(groups, user, category);
    }
  }

  /** Without a first gating group, no group up to `j` gates the category. */
  lemma {:induction false} NoGatingBefore(groups: seq<Group>, category: string, j: int)
    requires 0 <= j < |groups|
    requires forall i :: !IsFirstGating(groups, category, i)
    ensures forall k :: 0 <= k <= j ==> !Gates(groups[k], category)
  {
    if j > 0 {
      NoGatingBefore(groups, category, j - 1);
    }
    assert !IsFirstGating(groups, category, j);
  }

  /** Groups after the first gating one are never consulted. */
  lemma LaterGroupsIgnored(groups: seq<Group>, rest: seq<Group>, user: UserId, category: string, i: int)
    requires IsFirstGating(groups, category, i)
    ensures CanView(groups, user, category) == CanView(groups[..i + 1] + rest, user, category)
  {
    var other := groups[..i + 1] + rest;
    assert IsFirstGating(other, category, i) by {
      forall j | 0 <= j <= i ensures other[j] == groups[j] { }
    }
    FirstGatingDecides(groups, user, category, i);
    FirstGatingDecides(other, user, category, i);
  }

  /** `g` gates the category and the user is one of its members. */
  predicate Qualifies(g: Group, user: UserId, category: string)
  {
    user in g.members && Gates(g, category)
  }

  /** Group `i` is the first, in iteration order, that qualifies. */
  ghost predicate IsFirstQualifying(groups: seq<Group>, user: UserId, category: string, i: int)
  {
    && 0 <= i < |groups|
    && Qualifies(groups[i], user, category)
    && forall j :: 0 <= j < i ==> !Qualifies(groups[j], user, category)
  }

  /**
    The name shown for a category: the first group that both has the user
    as a member and prefixes the category has its prefix deleted, with
    `str.replace` semantics (every occurrence, not only the leading one);
    with no such group the category is shown as it is.
   */
  function DisplayName(groups: seq<Group>, user: UserId, category: string): (name: string)
    ensures |name| <= |category|
  {
    if groups == [] then category
    else if Qualifies(groups[0], user, category) then ReplaceAll(category, GroupPrefix(groups[0].name), "")
    else DisplayName(groups[1..], user, category)
  }

  /**
    The display name is the category with the first qualifying group's
    prefix deleted everywhere, and so strictly shorter than the category.
   */
  lemma {:induction false} DisplayNameFirstQualifying(groups: seq<Group>, user: UserId, category: string, i: int)
    requires IsFirstQualifying(groups, user, category, i)
    ensures DisplayName(groups, user, category) == ReplaceAll(category, GroupPrefix(groups[i].name), "")
    ensures |DisplayName(groups, user, category)| < |category|
  {
    if i > 0 {
      assert IsFirstQualifying(groups[1..], user, category, i - 1);
      DisplayNameFirstQualifying(groups[1..], user, category, i - 1);
    }
  }

  /** With no qualifying group the category name is shown unchanged. */
  lemma {:induction false} DisplayNameUnqualified(groups: seq<Group>, user: UserId, category: string)
    requires forall j :: 0 <= j < |groups| ==> !Qualifies(groups[j], user, category)
    ensures DisplayName(groups, user, category) == category
  {
    if groups != [] {
      assert !Qualifies(groups[0], user, category);
      DisplayNameUnqualified(groups[1..], user, category);
    }
  }

  /**
    For a category the user was allowed to open because it is gated, the
    group whose prefix is stripped for display is the gating group itself.
   */
  lemma DisplayNameOfGatedView(groups: seq<Group>, user: UserId, category: string, i: int)
    requires IsFirstGating(groups, category, i)
    requires CanView(groups, user, category)
    ensures DisplayName(groups, user, category) == ReplaceAll(category, GroupPrefix(groups[i].name), "")
  {
    FirstGatingDecides(groups, user, category, i);
    assert IsFirstQualifying(groups, user, category, i);
    DisplayNameFirstQualifying(groups, user, category, i);
  }
}
