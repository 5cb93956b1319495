/** Which keys and values Kubernetes takes for labels. */
module LabelSyntax {
  predicate LowerAlphanumeric(c: char) { 'a' <= c <= 'z' || '0' <= c <= '9' }

  predicate Alphanumeric(c: char) { LowerAlphanumeric(c) || 'A' <= c <= 'Z' }

  /** Letters, digits, `-`, `_` and `.`, with a letter or digit at both ends. */
  predicate NameFormat(s: string) {
    && s != "" && Alphanumeric(s[0]) && Alphanumeric(s[|s| - 1])
    && forall i | 0 <= i < |s| :: Alphanumeric(s[i]) || s[i] == '-' || s[i] == '_' || s[i] == '.'
  }

  /** IsValidLabelValue */
  predicate LabelValue(s: string) { |s| <= 63 && (s == "" || NameFormat(s)) }

  /** The name part of a key. */
  predicate NamePart(s: string) { |s| <= 63 && NameFormat(s) }

  /** IsDNS1123Subdomain: parts separated by dots, each with a lower-case letter or a digit at both ends. */
  predicate Subdomain(s: string) {
    && 0 < |s| <= 253 && LowerAlphanumeric(s[0]) && LowerAlphanumeric(s[|s| - 1])
    && (forall i | 0 <= i < |s| :: LowerAlphanumeric(s[i]) || s[i] == '-' || s[i] == '.')
    && (forall i | 0 < i < |s| - 1 && s[i] == '.' :: LowerAlphanumeric(s[i - 1]) && LowerAlphanumeric(s[i + 1]))
  }

  /** IsQualifiedName: a name, perhaps after a subdomain and a slash.  Neither part can hold a slash. */
  predicate QualifiedName(s: string) {
    NamePart(s) || exists i :: 0 <= i < |s| && s[i] == '/' && Subdomain(s[..i]) && NamePart(s[i + 1..])
  }
}

/** Labels, selectors, the labels that tie objects to users, and the names of claims. */
module Labels {
  import opened Prelude
  import opened Errors
  import opened LabelSyntax

  type Labels = map<string, string>

  datatype Operator = In | NotIn | Exists | DoesNotExist | Unknown

  datatype Requirement = Requirement(key: string, operator: Operator, values: set<string>)

  /** metav1.LabelSelector; a nil map of match labels is None. */
  datatype LabelSelector = LabelSelector(matchLabels: Option<Labels>, expressions: seq<Requirement>)

  datatype Selector = Nothing | All(labels: Labels, requirements: seq<Requirement>)

  predicate ValidRequirement(r: Requirement) {
    && QualifiedName(r.key) && (forall v | v in r.values :: LabelValue(v))
    && match r.operator
       case In => r.values != {}
       case NotIn => r.values != {}
       case Exists => r.values == {}
       case DoesNotExist => r.values == {}
       case Unknown => false
  }

  predicate ValidSet(labels: Labels) { forall k | k in labels :: QualifiedName(k) && LabelValue(labels[k]) }

  predicate ValidSelector(s: LabelSelector) {
    && ValidSet(LabelsOrEmpty(s.matchLabels))
    && forall i | 0 <= i < |s.expressions| :: ValidRequirement(s.expressions[i])
  }

  /** metav1.LabelSelectorAsSelector: nil selects nothing, the empty selector selects everything. */
  function AsSelector(s: Option<LabelSelector>): Result<Selector, Error> {
    match s
    case None => Ok(Nothing)
    case Some(ls) =>
      if ValidSelector(ls) then Ok(All(LabelsOrEmpty(ls.matchLabels), ls.expressions))
      else Err(Plain("invalid label selector"))
  }

  function LabelsOrEmpty(o: Option<Labels>): Labels { if o.Some? then o.value else map[] }

  /** labels.Set.AsSelector: a single invalid label makes a selector that matches everything. */
  function SetSelector(labels: Labels): Selector { All(Selecting(labels), []) }

  function Selecting(labels: Labels): Labels { if ValidSet(labels) then labels else map[] }

  predicate Meets(labels: Labels, r: Requirement) {
    match r.operator
    case In => r.key in labels && labels[r.key] in r.values
    case NotIn => r.key !in labels || labels[r.key] !in r.values
    case Exists => r.key in labels
    case DoesNotExist => r.key !in labels
    case Unknown => false
  }

  /** NotIn is the opposite of In, also for labels without the key, and DoesNotExist that of Exists. */
  lemma OperatorsAreOpposites(labels: Labels, key: string, values: set<string>)
    ensures Meets(labels, Requirement(key, NotIn, values)) <==> !Meets(labels, Requirement(key, In, values))
    ensures Meets(labels, Requirement(key, DoesNotExist, {})) <==> !Meets(labels, Requirement(key, Exists, {}))
  {
  }

  predicate Carries(labels: Labels, wanted: Labels) {
    forall k | k in wanted :: k in labels && labels[k] == wanted[k]
  }

  predicate Matches(s: Selector, labels: Labels) {
    s.All? && Carries(labels, s.labels) && forall i | 0 <= i < |s.requirements| :: Meets(labels, s.requirements[i])
  }

  // ---------------------------------------------------------------- users

  const USER_LABEL: string := "k8cc.io/username"

  function UserLabels(labels: Labels, user: string): Labels { labels[USER_LABEL := user] }

  function GetSelectorForUser(s: Option<LabelSelector>, user: string): Option<LabelSelector> {
    if s.None? || s.value.matchLabels.None? then None
    else Some(LabelSelector(Some(UserLabels(s.value.matchLabels.value, user)), s.value.expressions))
  }

  /** The selector that looks up Deployments and Services for one user keeps off everything labelled for
      others exactly if its labels are valid.  The selector that a Deployment uses for its pods always does,
      as an invalid one is refused. */
  lemma UsersAreIsolated(u: string, mine: Labels, s: Option<LabelSelector>)
    ensures (forall v: string, theirs: Labels | v != u ::
               !Matches(SetSelector(UserLabels(mine, u)), UserLabels(theirs, v)))
            <==> ValidSet(UserLabels(mine, u))
    ensures var podSelector := AsSelector(GetSelectorForUser(s, u));
            podSelector.Ok? ==> forall v: string, theirs: Labels | v != u ::
              !Matches(podSelector.value, UserLabels(theirs, v))
  {
    assert USER_LABEL in UserLabels(mine, u);
    if !ValidSet(UserLabels(mine, u)) {
      assert Matches(SetSelector(UserLabels(mine, u)), UserLabels(mine, u + "x"));
    }
    if s.Some? && s.value.matchLabels.Some? {
      assert USER_LABEL in UserLabels(s.value.matchLabels.value, u);
    }
  }

  lemma UserLabelIsQualified()
    ensures QualifiedName(USER_LABEL)
  {
    assert USER_LABEL[..7] == "k8cc.io" && USER_LABEL[8..] == "username";
    assert Subdomain("k8cc.io") && NamePart("username");
    assert USER_LABEL[7] == '/';
  }

  /** So with a client whose labels are valid, it depends on the user's name alone. */
  lemma ValidUsersAreIsolated(u: string, mine: Labels)
    requires ValidSet(mine)
    ensures ValidSet(UserLabels(mine, u)) <==> LabelValue(u)
  {
    UserLabelIsQualified();
    assert UserLabels(mine, u)[USER_LABEL] == u;
    assert forall k | k in UserLabels(mine, u) && k != USER_LABEL :: k in mine;
  }

  /** A name that the API takes and Kubernetes does not take for a label value: the lookup selector of this
      user matches everybody's objects. */
  lemma UserWithDashSeesOthers(mine: Labels, theirs: Labels)
    ensures Matches(SetSelector(UserLabels(mine, "alice-")), theirs)
  {
    assert UserLabels(mine, "alice-")[USER_LABEL] == "alice-";
    assert "alice-"[5] == '-';
  }

  /** A Deployment created for a client selects its own pods exactly if the client's selector is there
      and, with the user's label, valid, its match labels other than the user's lie within the client's
      labels, and the pods' labels meet its expressions.  Pods are labelled `UserLabels(client, user)`. */
  lemma DeploymentSelectsItsPods(client: Labels, s: Option<LabelSelector>, user: string)
    ensures var podSelector := AsSelector(GetSelectorForUser(s, user));
            (podSelector.Ok? && Matches(podSelector.value, UserLabels(client, user))) <==>
            (s.Some? && s.value.matchLabels.Some?
             && Carries(client, s.value.matchLabels.value - {USER_LABEL})
             && ValidSet(UserLabels(s.value.matchLabels.value, user))
             && (forall i | 0 <= i < |s.value.expressions| ::
                   ValidRequirement(s.value.expressions[i]) && Meets(UserLabels(client, user), s.value.expressions[i])))
  {
    if s.Some? && s.value.matchLabels.Some? {
      var wanted := s.value.matchLabels.value;
      var rest := wanted - {USER_LABEL};
      var pod := UserLabels(client, user);
      if Carries(client, rest) {
        forall k | k in UserLabels(wanted, user) ensures k in pod && pod[k] == UserLabels(wanted, user)[k] {
          assert k != USER_LABEL ==> k in rest;
        }
      }
      if Carries(pod, UserLabels(wanted, user)) {
        forall k | k in rest ensures k in client && client[k] == rest[k] {
          assert k in UserLabels(wanted, user);
        }
      }
    }
  }

  /** The claim controller accepts a claim when it carries all labels of its Distcc; the autoscaler
      lists claims with the Distcc's selector.  Every acceptable claim is listed exactly if the selector
      is valid, its match labels lie within the Distcc's labels, and its expressions are about these
      labels and hold of them.  Invalid labels of a Distcc are as good as none: all claims are accepted. */
  lemma AcceptedClaimsAreListed(distcc: Labels, s: LabelSelector)
    ensures var listing := AsSelector(Some(s));
            (listing.Ok? && forall claim: Labels | Matches(SetSelector(distcc), claim) :: Matches(listing.value, claim))
            <==> ValidSelector(s) && Carries(Selecting(distcc), LabelsOrEmpty(s.matchLabels))
                 && forall i | 0 <= i < |s.expressions| :: Settles(Selecting(distcc), s.expressions[i])
  {
    var listing, needed := AsSelector(Some(s)), Selecting(distcc);
    assert Matches(SetSelector(distcc), needed);
    if ValidSelector(s) && Carries(needed, LabelsOrEmpty(s.matchLabels))
       && forall i | 0 <= i < |s.expressions| :: Settles(needed, s.expressions[i])
    {
      forall claim: Labels | Matches(SetSelector(distcc), claim) ensures Matches(listing.value, claim) {
        assert forall k | k in needed :: k in claim && claim[k] == needed[k];
      }
    } else if listing.Ok? {
      forall i | 0 <= i < |s.expressions| && !Settles(needed, s.expressions[i])
        ensures exists claim: Labels :: Matches(SetSelector(distcc), claim) && !Matches(listing.value, claim)
      {
        var claim := Unsettled(needed, s.expressions[i]);
        assert Matches(SetSelector(distcc), claim) && !Matches(listing.value, claim);
      }
    }
  }

  /** All claims with these labels meet the requirement. */
  predicate Settles(distcc: Labels, r: Requirement) {
    ValidRequirement(r) && r.key in distcc && Meets(distcc, r)
  }

  /** A claim with the given labels that does not meet a requirement they do not settle. */
  lemma Unsettled(distcc: Labels, r: Requirement) returns (claim: Labels)
    requires ValidRequirement(r) && !Settles(distcc, r)
    ensures Carries(claim, distcc) && !Meets(claim, r)
  {
    if r.key in distcc || !Meets(distcc, r) {
      claim := distcc;
    } else {
      var value := "";
      if r.operator == NotIn { value :| value in r.values; }
      claim := distcc[r.key := value];
    }
  }

  // ---------------------------------------------------------------- claim names

  /** makeClaimName */
  function ClaimName(user: string, resource: string): string { user + "-" + resource }

  ghost predicate Extends(longer: string, short: string, x: string) { longer == short + "-" + x }

  /** Two requests share a claim name only if they are the same, or if one user name continues the
      other after a dash and the resource names make up for it. */
  lemma ClaimNamesCollideExactly(u: string, r: string, v: string, s: string)
    ensures ClaimName(u, r) == ClaimName(v, s) <==>
            || (u == v && r == s)
            || (exists x :: Extends(v, u, x) && Extends(r, x, s))
            || (exists x :: Extends(u, v, x) && Extends(s, x, r))
  {
    forall x | Extends(v, u, x) && Extends(r, x, s) ensures ClaimName(u, r) == ClaimName(v, s) {
      assert u + "-" + (x + "-" + s) == u + "-" + x + "-" + s;
    }
    forall x | Extends(u, v, x) && Extends(s, x, r) ensures ClaimName(u, r) == ClaimName(v, s) {
      assert v + "-" + (x + "-" + r) == v + "-" + x + "-" + r;
    }
    if ClaimName(u, r) == ClaimName(v, s) {
      if |u| == |v| {
        SameLengthNames(u, r, v, s);
      } else if |u| < |v| {
        NameSplits(u, r, v, s);
      } else {
        NameSplits(v, s, u, r);
      }
    }
  }

  lemma SameLengthNames(u: string, r: string, v: string, s: string)
    requires ClaimName(u, r) == ClaimName(v, s) && |u| == |v|
    ensures u == v && r == s
  {
    var name := ClaimName(u, r);
    assert u == name[..|u|] && r == name[|u| + 1..];
    assert v == name[..|v|] && s == name[|v| + 1..];
  }

  lemma NameSplits(u: string, r: string, v: string, s: string)
    requires ClaimName(u, r) == ClaimName(v, s) && |u| < |v|
    ensures exists x :: Extends(v, u, x) && Extends(r, x, s)
  {
    var name := ClaimName(u, r);
    var x := v[|u| + 1..];
    assert v == name[..|v|] && u == name[..|u|] && r == name[|u| + 1..] && s == name[|v| + 1..];
    assert name[|u|] == '-' && name[|v|] == '-';
    assert Extends(v, u, x);
    assert Extends(r, x, s);
  }

  lemma ExtensionHasDash(longer: string, short: string, x: string)
    requires Extends(longer, short, x)
    ensures '-' in longer
  {
    assert longer[|short|] == '-';
  }

  /** Users without a dash in their names never share a claim name. */
  lemma ClaimNamesAreInjective(u: string, r: string, v: string, s: string)
    requires '-' !in u && '-' !in v && ClaimName(u, r) == ClaimName(v, s)
    ensures u == v && r == s
  {
    ClaimNamesCollideExactly(u, r, v, s);
    forall x | Extends(v, u, x) ensures false { ExtensionHasDash(v, u, x); }
    forall x | Extends(u, v, x) ensures false { ExtensionHasDash(u, v, x); }
  }
}

/** Maps of labels in memory: like every Go map they are shared unless copied. */
module LabelMaps {
  import opened Labels

  class LabelMap {
    var entries: Labels

    constructor ()
      ensures entries == map[]
    {
      entries := map[];
    }
  }

  /** A nil map has no entries. */
  function Entries(m: LabelMap?): Labels
    reads m
  {
    if m == null then map[] else m.entries
  }

  /** getLabelsForUser: a copy with the user label set; the labels given to it stay as they are. */
  method GetLabelsForUser(labels: LabelMap?, user: string) returns (res: LabelMap)
    ensures fresh(res) && res.entries == UserLabels(Entries(labels), user)
  {
    res := new LabelMap();
    var rest := Entries(labels).Keys;
    while rest != {}
      invariant fresh(res) && rest <= Entries(labels).Keys
      invariant res.entries == map k | k in Entries(labels) && k !in rest :: Entries(labels)[k]
      decreases rest
    {
      var k :| k in rest;
      res.entries := res.entries[k := labels.entries[k]];
      rest := rest - {k};
    }
    res.entries := res.entries[USER_LABEL := user];
  }
}
