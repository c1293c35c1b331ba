/** Who is asking: service-account usernames (internal/webhook/auth.go) and the
    allow-list of control-plane identities (cmd/webhook/main.go). */
module ServiceAccounts {
  import opened Wrappers
  import opened Text

  const SA_PREFIX := "system:serviceaccount:"
  const SA_GROUP := "system:serviceaccounts"
  const SYSTEM_PREFIX := "system:"

  const FLUX_SERVICE_ACCOUNTS: seq<string> := [
    "kustomize-controller", "helm-controller", "source-controller", "notification-controller",
    "image-reflector-controller", "image-automation-controller"]

  const FLUX_RECONCILER_SERVICE_ACCOUNTS: seq<string> := ["flux-reconciler"]

  const DEFAULT_SYSTEM_CONTROLLERS: seq<string> := [
    "kube-system:" + "generic-garbage-collector",
    "kube-system:" + "endpoint-controller",
    "kube-system:" + "endpointslice-controller",
    "kube-system:" + "endpointslicemirroring-controller",
    "kube-system:" + "ttl-after-finished-controller",
    "kube-system:" + "cronjob-controller",
    "system:apiserver",
    "system:kube-controller-manager"]

  datatype UserInfo = UserInfo(username: string, groups: seq<string>)

  datatype ServiceAccount = ServiceAccount(namespace: string, name: string)

  function ParseServiceAccount(user: UserInfo): Option<ServiceAccount> {
    if !(SA_PREFIX <= user.username) then None
    else
      var parts := Split(user.username, ':');
      if |parts| != 4 || SA_GROUP !in user.groups then None
      else Some(ServiceAccount(parts[2], parts[3]))
  }

  predicate IsFluxController(user: UserInfo, fluxNamespace: string) {
    var sa := ParseServiceAccount(user);
    sa.Some? && sa.value.namespace == fluxNamespace && sa.value.name in FLUX_SERVICE_ACCOUNTS
  }

  /** `entries` holds full `system:` usernames and `namespace:name` shorthands. */
  predicate IsSystemController(user: UserInfo, entries: seq<string>) {
    || (SYSTEM_PREFIX <= user.username && !(SA_PREFIX <= user.username) && user.username in entries)
    || (var sa := ParseServiceAccount(user);
        && sa.Some?
        && exists entry | entry in entries ::
             !(SYSTEM_PREFIX <= entry) && entry == sa.value.namespace + ":" + sa.value.name)
  }

  // ---- The allow-list ----

  /** Trimmed, non-empty tokens of a comma-separated list. */
  function Tokens(parts: seq<string>): seq<string> {
    if parts == [] then []
    else
      var token := TrimSpace(parts[0]);
      (if token == "" then [] else [token]) + Tokens(parts[1..])
  }

  lemma {:induction false} TokensLast(parts: seq<string>, part: string)
    ensures Tokens(parts + [part]) ==
            Tokens(parts) + if TrimSpace(part) == "" then [] else [TrimSpace(part)]
  {
    if parts == [] {
      assert [part][1..] == [];
    } else {
      assert (parts + [part])[1..] == parts[1..] + [part];
      TokensLast(parts[1..], part);
    }
  }

  method SplitCSV(csv: string) returns (tokens: seq<string>)
    ensures tokens == Tokens(Split(csv, ','))
  {
    var parts := Split(csv, ',');
    tokens := [];
    for i := 0 to |parts|
      invariant tokens == Tokens(parts[..i])
    {
      var token := TrimSpace(parts[i]);
      assert parts[..i + 1] == parts[..i] + [parts[i]];
      TokensLast(parts[..i], parts[i]);
      if token != "" {
        tokens := tokens + [token];
      }
    }
    assert parts[..|parts|] == parts;
  }

  /** An entry the flag accepts: a `system:` username that is not a service account's,
      or a shorthand with exactly one colon and nothing empty around it. */
  predicate ValidEntry(e: string) {
    if SYSTEM_PREFIX <= e then !(SA_PREFIX <= e)
    else
      var parts := Split(e, ':');
      |parts| == 2 && parts[0] != "" && parts[1] != ""
  }

  /** Appends each token not listed yet, in order. */
  function Extend(list: seq<string>, tokens: seq<string>): seq<string>
    decreases |tokens|
  {
    if tokens == [] then list
    else Extend(if tokens[0] in list then list else list + [tokens[0]], tokens[1..])
  }

  /** The merged list, or an error when some new token is not a valid entry. */
  function Merge(defaults: seq<string>, tokens: seq<string>): Result<seq<string>> {
    if exists t | t in tokens :: t !in defaults && !ValidEntry(t) then Err
    else Ok(Extend(defaults, tokens))
  }

  method MergeSystemControllerSAs(csv: string) returns (res: Result<seq<string>>)
    ensures res == Merge(DEFAULT_SYSTEM_CONTROLLERS, Tokens(Split(csv, ',')))
  {
    res := MergeInto(DEFAULT_SYSTEM_CONTROLLERS, csv);
  }

  method MergeInto(defaults: seq<string>, csv: string) returns (res: Result<seq<string>>)
    ensures res == Merge(defaults, Tokens(Split(csv, ',')))
  {
    var result := defaults;
    var seen: set<string> := set e | e in result;
    var parts := Split(csv, ',');
    ghost var tokens: seq<string> := [];
    for i := 0 to |parts|
      invariant tokens == Tokens(parts[..i])
      invariant forall e :: e in seen <==> e in result
      invariant Merge(defaults, tokens) == Ok(result)
    {
      var e := TrimSpace(parts[i]);
      TokensTake(parts, i);
      if e == "" {
        continue;
      }
      MergeNext(defaults, tokens, e, result);
      tokens := tokens + [e];
      if e in seen {
        continue;
      }
      if !ValidEntry(e) {
        TokensSlice(parts, i + 1);
        MergeStaysErr(defaults, tokens, Tokens(parts));
        return Err;
      }
      seen := seen + {e};
      result := result + [e];
    }
    assert parts[..|parts|] == parts;
    return Ok(result);
  }

  lemma TokensTake(parts: seq<string>, i: nat)
    requires i < |parts|
    ensures Tokens(parts[..i + 1]) ==
            Tokens(parts[..i]) + if TrimSpace(parts[i]) == "" then [] else [TrimSpace(parts[i])]
  {
    TokensOfLast(parts[..i + 1], parts[..i], parts[i]);
  }

  lemma TokensOfLast(parts: seq<string>, init: seq<string>, last: string)
    requires parts == init + [last]
    ensures Tokens(parts) == Tokens(init) + if TrimSpace(last) == "" then [] else [TrimSpace(last)]
  {
    TokensLast(init, last);
  }

  /** One more token: nothing new if it is listed, an error if it is not a valid entry. */
  lemma MergeNext(defaults: seq<string>, tokens: seq<string>, e: string, result: seq<string>)
    requires Merge(defaults, tokens) == Ok(result)
    ensures Merge(defaults, tokens + [e]) ==
            if e in result then Ok(result) else if ValidEntry(e) then Ok(result + [e]) else Err
  {
    ExtendKeeps(defaults, tokens);
    ExtendLast(defaults, tokens, e);
    assert forall t :: t in tokens + [e] <==> t in tokens || t == e;
  }

  lemma MergeStaysErr(defaults: seq<string>, some: seq<string>, all: seq<string>)
    requires some <= all && Merge(defaults, some).Err?
    ensures Merge(defaults, all).Err?
  {
    var t :| t in some && t !in defaults && !ValidEntry(t);
    assert t in all;
  }

  lemma {:induction false} TokensSlice(parts: seq<string>, n: nat)
    requires n <= |parts|
    ensures Tokens(parts[..n]) <= Tokens(parts)
    decreases |parts| - n
  {
    if n == |parts| {
      assert parts[..n] == parts;
    } else {
      assert parts[..n + 1] == parts[..n] + [parts[n]];
      TokensLast(parts[..n], parts[n]);
      TokensSlice(parts, n + 1);
    }
  }

  lemma {:induction false} ExtendLast(list: seq<string>, tokens: seq<string>, t: string)
    ensures var r := Extend(list, tokens);
            Extend(list, tokens + [t]) == if t in r then r else r + [t]
    decreases |tokens|
  {
    if tokens == [] {
      assert [t][1..] == [];
    } else {
      assert (tokens + [t])[1..] == tokens[1..] + [t];
      ExtendLast(if tokens[0] in list then list else list + [tokens[0]], tokens[1..], t);
    }
  }

  /** The list is kept as a prefix, nothing is repeated, nothing is lost or invented. */
  lemma {:induction false} ExtendKeeps(list: seq<string>, tokens: seq<string>)
    ensures list <= Extend(list, tokens)
    ensures forall e :: e in Extend(list, tokens) <==> e in list || e in tokens
    ensures NoDuplicates(list) ==> NoDuplicates(Extend(list, tokens))
    decreases |tokens|
  {
    if tokens != [] {
      var longer := if tokens[0] in list then list else list + [tokens[0]];
      ExtendKeeps(longer, tokens[1..]);
      assert forall e :: e in tokens <==> e == tokens[0] || e in tokens[1..];
    }
  }

  /** New entries come in the order they first appear. */
  lemma {:induction false} ExtendInOrder(list: seq<string>, tokens: seq<string>)
    requires NoDuplicates(list)
    ensures forall i, j, q | |list| <= i < j < |Extend(list, tokens)| && 0 <= q < |tokens| &&
                             tokens[q] == Extend(list, tokens)[j] ::
              Extend(list, tokens)[i] in tokens[..q]
    decreases |tokens|
  {
    if tokens != [] {
      var init, t := tokens[..|tokens| - 1], tokens[|tokens| - 1];
      assert tokens == init + [t];
      ExtendLast(list, init, t);
      ExtendInOrder(list, init);
      ExtendKeeps(list, init);
      var before, after := Extend(list, init), Extend(list, tokens);
      forall i, j, q | |list| <= i < j < |after| && 0 <= q < |tokens| && tokens[q] == after[j]
        ensures after[i] in tokens[..q]
      {
        assert after[i] == before[i] && before[i] in before;
        if q < |init| {
          assert tokens[..q] == init[..q] && tokens[q] == init[q] && init[q] in init;
        } else {
          assert tokens[..q] == init;
        }
      }
    }
  }

  /** A token as it comes out of the split: something, without surrounding space. */
  predicate IsTrimmed(t: string) {
    t != "" && !IsSpace(t[0]) && !IsSpace(t[|t| - 1])
  }

  lemma {:induction false} TokensAreTrimmed(parts: seq<string>)
    ensures forall t | t in Tokens(parts) :: IsTrimmed(t)
    ensures (forall p | p in parts :: ',' !in p) ==> forall t | t in Tokens(parts) :: ',' !in t
  {
    if parts != [] {
      TrimKeepsInner(parts[0]);
      TokensAreTrimmed(parts[1..]);
    }
  }

  lemma {:induction false} TokensOfTrimmed(tokens: seq<string>)
    requires forall t | t in tokens :: IsTrimmed(t)
    ensures Tokens(tokens) == tokens
  {
    if tokens != [] {
      assert tokens[0] in tokens;
      TokensOfTrimmed(tokens[1..]);
    }
  }

  /** Writing trimmed, comma-free tokens as a list and splitting it gives them back; the
      tokens of any list are such. */
  lemma CSVRoundTrip(tokens: seq<string>, csv: string)
    requires forall t | t in tokens :: IsTrimmed(t) && ',' !in t
    ensures Tokens(Split(Join(tokens, ','), ',')) == tokens
    ensures forall t | t in Tokens(Split(csv, ',')) :: IsTrimmed(t) && ',' !in t
  {
    TokensAreTrimmed(Split(csv, ','));
    if tokens == [] {
      assert Split("", ',')[1..] == [];
    } else {
      SplitJoin(tokens, ',');
      TokensOfTrimmed(tokens);
    }
  }

  // ---- Recognition ----

  /** The one username an entry stands for. */
  function Canonical(e: string): string {
    if SYSTEM_PREFIX <= e then e else SA_PREFIX + e
  }

  lemma SplitTwoHeads(a: string, b: string, sep: char, rest: string)
    requires sep !in a && sep !in b
    ensures Split(a + [sep] + b + [sep] + rest, sep) == [a, b] + Split(rest, sep)
  {
    assert a + [sep] + b + [sep] + rest == a + [sep] + (b + [sep] + rest);
    SplitHead(a, sep, b + [sep] + rest);
    SplitHead(b, sep, rest);
  }

  lemma SplitServiceAccount(rest: string)
    ensures Split(SA_PREFIX + rest, ':') == ["system", "serviceaccount"] + Split(rest, ':')
  {
    assert SA_PREFIX == "system" + [':'] + "serviceaccount" + [':'];
    SplitTwoHeads("system", "serviceaccount", ':', rest);
  }

  lemma ParseRest(user: UserInfo, rest: string)
    requires user.username == SA_PREFIX + rest
    ensures var parts := Split(rest, ':');
            ParseServiceAccount(user) ==
            if |parts| == 2 && SA_GROUP in user.groups then Some(ServiceAccount(parts[0], parts[1])) else None
  {
    SplitServiceAccount(rest);
  }

  lemma TwoParts(s: string, a: string, b: string)
    ensures Split(s, ':') == [a, b] <==> s == a + ":" + b && ':' !in a && ':' !in b
  {
    if Split(s, ':') == [a, b] {
      JoinSplit(s, ':');
      assert a in Split(s, ':') && b in Split(s, ':');
      assert [a, b][1..] == [b];
    }
    if s == a + ":" + b && ':' !in a && ':' !in b {
      SplitHead(a, ':', b);
      SplitWhole(b, ':');
    }
  }

  /** A service-account username is parsed exactly when it is written the one way
      Kubernetes writes it and the group confirms it. */
  lemma ParseExactly(user: UserInfo, sa: ServiceAccount)
    ensures ParseServiceAccount(user) == Some(sa) <==>
            && user.username == SA_PREFIX + (sa.namespace + ":" + sa.name)
            && ':' !in sa.namespace && ':' !in sa.name && SA_GROUP in user.groups
  {
    if SA_PREFIX <= user.username {
      var rest := user.username[|SA_PREFIX|..];
      ParseRest(user, rest);
      TwoParts(rest, sa.namespace, sa.name);
      if ParseServiceAccount(user) == Some(sa) {
        assert Split(rest, ':') == [sa.namespace, sa.name];
      }
    }
  }

  /** What the flag accepts: a reserved username that is no service account's, or the
      namespace and the name of a service account. */
  lemma ValidEntryExactly(e: string)
    ensures ValidEntry(e) <==>
            if "system:" <= e then !("system:serviceaccount:" <= e)
            else exists namespace, name ::
                   && namespace != "" && name != "" && ':' !in namespace && ':' !in name
                   && e == namespace + ":" + name
  {
    var parts := Split(e, ':');
    if |parts| == 2 {
      assert parts == [parts[0], parts[1]];
      TwoParts(e, parts[0], parts[1]);
    }
    forall namespace, name | e == namespace + ":" + name && ':' !in namespace && ':' !in name
      ensures parts == [namespace, name]
    {
      TwoParts(e, namespace, name);
    }
  }

  /** Different accepted entries stand for different usernames. */
  lemma CanonicalInjective(e: string, f: string)
    requires ValidEntry(e) && ValidEntry(f) && Canonical(e) == Canonical(f)
    ensures e == f
  {
    assert !(SYSTEM_PREFIX <= e) ==> Canonical(e)[|SA_PREFIX|..] == e && SA_PREFIX <= Canonical(e);
    assert !(SYSTEM_PREFIX <= f) ==> Canonical(f)[|SA_PREFIX|..] == f && SA_PREFIX <= Canonical(f);
  }

  /** For accepted entries, recognition is exact: the username is the canonical form
      of some entry, and a shorthand also needs the service-account group. */
  lemma RecognitionExact(user: UserInfo, entries: seq<string>)
    requires forall e | e in entries :: ValidEntry(e)
    ensures IsSystemController(user, entries) <==>
            exists e | e in entries :: StandsFor(user, e)
  {
    forall e | e in entries ensures MatchesEntry(user, e) <==> StandsFor(user, e) {
      EntryExact(user, e);
    }
    if IsSystemController(user, entries) {
      if SYSTEM_PREFIX <= user.username && !(SA_PREFIX <= user.username) && user.username in entries {
        assert MatchesEntry(user, user.username);
      } else {
        var sa := ParseServiceAccount(user).value;
        assert MatchesEntry(user, sa.namespace + ":" + sa.name);
      }
    }
    if e :| e in entries && StandsFor(user, e) {
      assert MatchesEntry(user, e);
    }
  }

  ghost predicate StandsFor(user: UserInfo, e: string) {
    user.username == Canonical(e) && (SYSTEM_PREFIX <= e || SA_GROUP in user.groups)
  }

  ghost predicate MatchesEntry(user: UserInfo, e: string) {
    || (SYSTEM_PREFIX <= user.username && !(SA_PREFIX <= user.username) && e == user.username)
    || (var sa := ParseServiceAccount(user);
        sa.Some? && !(SYSTEM_PREFIX <= e) && e == sa.value.namespace + ":" + sa.value.name)
  }

  lemma EntryExact(user: UserInfo, e: string)
    requires ValidEntry(e)
    ensures MatchesEntry(user, e) <==> StandsFor(user, e)
  {
    if !(SYSTEM_PREFIX <= e) {
      var parts := Split(e, ':');
      TwoParts(e, parts[0], parts[1]);
      ParseExactly(user, ServiceAccount(parts[0], parts[1]));
      if MatchesEntry(user, e) && ParseServiceAccount(user).Some? {
        var sa := ParseServiceAccount(user).value;
        ParseExactly(user, sa);
      }
    }
  }

  lemma KubeSystemValid(name: string)
    requires name != "" && forall i | 0 <= i < |name| :: name[i] != ':'
    ensures ValidEntry("kube-system:" + name)
  {
    var e := "kube-system:" + name;
    assert e == "kube-system" + ":" + name;
    TwoParts(e, "kube-system", name);
    assert e[0] == 'k' && SYSTEM_PREFIX[0] == 's';
  }

  lemma DefaultsValid()
    ensures forall i | 0 <= i < |DEFAULT_SYSTEM_CONTROLLERS| :: ValidEntry(DEFAULT_SYSTEM_CONTROLLERS[i])
  {
    FirstDefaultsValid();
    MiddleDefaultsValid();
    ComponentDefaultsValid();
  }

  lemma FirstDefaultsValid()
    ensures forall i | 0 <= i < 3 :: ValidEntry(DEFAULT_SYSTEM_CONTROLLERS[i])
  {
    KubeSystemValid("generic-garbage-collector");
    KubeSystemValid("endpoint-controller");
    KubeSystemValid("endpointslice-controller");
  }

  lemma MiddleDefaultsValid()
    ensures forall i | 3 <= i < 6 :: ValidEntry(DEFAULT_SYSTEM_CONTROLLERS[i])
  {
    KubeSystemValid("endpointslicemirroring-controller");
    KubeSystemValid("ttl-after-finished-controller");
    KubeSystemValid("cronjob-controller");
  }

  lemma ComponentDefaultsValid()
    ensures forall i | 6 <= i < 8 :: ValidEntry(DEFAULT_SYSTEM_CONTROLLERS[i])
  {
    var d := DEFAULT_SYSTEM_CONTROLLERS;
    assert d[6][..7] == SYSTEM_PREFIX && d[7][..7] == SYSTEM_PREFIX;
    assert |d[6]| < |SA_PREFIX| && d[7][7] == 'k' && SA_PREFIX[7] == 's';
  }

  lemma DefaultsDistinct()
    ensures NoDuplicates(DEFAULT_SYSTEM_CONTROLLERS)
  {
    var d := DEFAULT_SYSTEM_CONTROLLERS;
    assert |d[0]| == 37 && |d[1]| == 31 && |d[2]| == 36 && |d[3]| == 45;
    assert |d[4]| == 41 && |d[5]| == 30 && |d[6]| == 16 && |d[7]| == 30;
    assert d[5][0] == 'k' && d[7][0] == 's';
  }

  /** The effective allow-list: the defaults come first and stay, nothing is repeated,
      every token is in, and the users it recognises are exactly those some entry stands
      for. */
  lemma MergedListRecognises(csv: string, user: UserInfo)
    requires Merge(DEFAULT_SYSTEM_CONTROLLERS, Tokens(Split(csv, ','))).Ok?
    ensures var list := Merge(DEFAULT_SYSTEM_CONTROLLERS, Tokens(Split(csv, ','))).value;
            && DEFAULT_SYSTEM_CONTROLLERS <= list && NoDuplicates(list)
            && (forall e :: e in list <==> e in DEFAULT_SYSTEM_CONTROLLERS || e in Tokens(Split(csv, ',')))
            && (IsSystemController(user, list) <==> exists e | e in list :: StandsFor(user, e))
  {
    DefaultsValid();
    DefaultsDistinct();
    ExtendKeeps(DEFAULT_SYSTEM_CONTROLLERS, Tokens(Split(csv, ',')));
    RecognitionExact(user, Merge(DEFAULT_SYSTEM_CONTROLLERS, Tokens(Split(csv, ','))).value);
  }

  /** The control plane's service accounts, with the token of one of them. */
  ghost predicate ControlPlaneAccount(user: UserInfo, name: string) {
    user.username == "system:serviceaccount:" + ("kube-system:" + name) && "system:serviceaccounts" in user.groups
  }

  lemma ShorthandStandsFor(user: UserInfo, name: string)
    ensures StandsFor(user, "kube-system:" + name) <==> ControlPlaneAccount(user, name)
  {
    assert ("kube-system:" + name)[0] == 'k' && SYSTEM_PREFIX[0] == 's';
  }

  /** The garbage collector, the endpoint controllers and the cleaners of finished work. */
  function ControllerNames(): seq<string> {
    ["generic-garbage-collector", "endpoint-controller", "endpointslice-controller",
     "endpointslicemirroring-controller", "ttl-after-finished-controller", "cronjob-controller"]
  }

  lemma DefaultAt(i: nat)
    requires i < 6
    ensures |ControllerNames()| == 6 && |DEFAULT_SYSTEM_CONTROLLERS| == 8
    ensures DEFAULT_SYSTEM_CONTROLLERS[i] == "kube-system:" + ControllerNames()[i]
  {
  }

  lemma DefaultStandsFor(user: UserInfo, i: nat)
    requires i < 8
    ensures |ControllerNames()| == 6 && |DEFAULT_SYSTEM_CONTROLLERS| == 8
    ensures StandsFor(user, DEFAULT_SYSTEM_CONTROLLERS[i]) <==>
            if i < 6 then ControlPlaneAccount(user, ControllerNames()[i])
            else user.username == if i == 6 then "system:apiserver" else "system:kube-controller-manager"
  {
    if i < 6 {
      DefaultAt(i);
      ShorthandStandsFor(user, ControllerNames()[i]);
    } else {
      ComponentStandsFor(user);
    }
  }

  /** Who counts as the control plane when nothing is configured. */
  lemma DefaultsExactly(user: UserInfo)
    ensures IsSystemController(user, DEFAULT_SYSTEM_CONTROLLERS) <==>
            || user.username == "system:apiserver" || user.username == "system:kube-controller-manager"
            || exists name | name in ControllerNames() :: ControlPlaneAccount(user, name)
  {
    DefaultsValid();
    RecognitionExact(user, DEFAULT_SYSTEM_CONTROLLERS);
    forall i | 0 <= i < 8
      ensures |ControllerNames()| == 6 && |DEFAULT_SYSTEM_CONTROLLERS| == 8
      ensures StandsFor(user, DEFAULT_SYSTEM_CONTROLLERS[i]) <==>
              if i < 6 then ControlPlaneAccount(user, ControllerNames()[i])
              else user.username == if i == 6 then "system:apiserver" else "system:kube-controller-manager"
    {
      DefaultStandsFor(user, i);
    }
    DefaultAt(0);
    var p: string -> bool, q: string -> bool := e => StandsFor(user, e), name => ControlPlaneAccount(user, name);
    SomeOfEight(DEFAULT_SYSTEM_CONTROLLERS, ControllerNames(), p, q);
    assert (exists e | e in DEFAULT_SYSTEM_CONTROLLERS :: StandsFor(user, e)) <==>
           exists e | e in DEFAULT_SYSTEM_CONTROLLERS :: p(e);
    assert (exists name | name in ControllerNames() :: ControlPlaneAccount(user, name)) <==>
           exists name | name in ControllerNames() :: q(name);
  }

  lemma SomeOfEight(d: seq<string>, names: seq<string>, p: string -> bool, q: string -> bool)
    requires |d| == 8 && |names| == 6 && forall i | 0 <= i < 6 :: p(d[i]) == q(names[i])
    ensures (exists e | e in d :: p(e)) <==> p(d[6]) || p(d[7]) || exists name | name in names :: q(name)
  {
    if e :| e in d && p(e) {
      var i :| 0 <= i < 8 && d[i] == e;
      assert i < 6 ==> names[i] in names;
    }
    if name :| name in names && q(name) {
      var i :| 0 <= i < 6 && names[i] == name;
      assert d[i] in d;
    }
    assert d[6] in d && d[7] in d;
  }

  lemma ComponentStandsFor(user: UserInfo)
    ensures StandsFor(user, "system:apiserver") <==> user.username == "system:apiserver"
    ensures StandsFor(user, "system:kube-controller-manager") <==> user.username == "system:kube-controller-manager"
  {
    assert "system:apiserver"[..7] == SYSTEM_PREFIX && "system:kube-controller-manager"[..7] == SYSTEM_PREFIX;
  }
}
