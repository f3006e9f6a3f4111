/** `CloudCollectorAmazonAWSMulti` of
    `cloudinventario_amazon_aws_multi/collector.py`: one credential per
    assumed role and region, one EC2 collector per credential, and the
    concatenation of their results. The `assume_role` call is a parameter
    `sts`. Region discovery through `describe_regions` (taken when a region list or a
    region is falsy) is not modelled: those paths yield None. */
module AwsMulti {
  import opened Wrappers

  /** A credential dict built by `_add_creds` with a truthy region. */
  datatype Cred = Cred(accessKey: string, secretKey: string, sessionToken: Option<string>,
                       region: string, accountId: string)

  /** A role entry of the config; `region` is None when the key is absent. */
  datatype Role = Role(account: string, role: string, region: Option<seq<string>>)

  /** The `Credentials` of an `assume_role` response. */
  datatype Assumed = Assumed(accessKeyId: string, secretAccessKey: string, sessionToken: string)

  /** `_add_creds` with an explicit region; a falsy region would start region discovery. */
  function AddCreds(creds: seq<Cred>, account: string, ak: string, sk: string, token: Option<string>,
                    region: string): Option<seq<Cred>>
  {
    if |region| > 0 then Some(creds + [Cred(ak, sk, token, region, account)]) else None
  }

  /** `_add_creds_regions`: one `_add_creds` per region, in order. */
  function AddCredsRegions(creds: seq<Cred>, account: string, ak: string, sk: string, token: Option<string>,
                           regions: seq<string>): Option<seq<Cred>>
  {
    if |regions| == 0 then None
    else AddCredsLoop(creds, account, ak, sk, token, regions)
  }

  function AddCredsLoop(creds: seq<Cred>, account: string, ak: string, sk: string, token: Option<string>,
                        regions: seq<string>): Option<seq<Cred>>
  {
    if |regions| == 0 then Some(creds)
    else match AddCredsLoop(creds, account, ak, sk, token, regions[..|regions| - 1])
      case None => None
      case Some(c) => AddCreds(c, account, ak, sk, token, regions[|regions| - 1])
  }

  predicate AllTruthy(regions: seq<string>) {
    forall i :: 0 <= i < |regions| ==> |regions[i]| > 0
  }

  /** With truthy regions, the loop appends exactly one credential per
      region, in order, each carrying that region and the given account,
      keys and token; what was there before is kept. */
  lemma {:induction false} AddCredsLoopAppends(creds: seq<Cred>, account: string, ak: string, sk: string,
                                               token: Option<string>, regions: seq<string>)
    requires AllTruthy(regions)
    ensures var r := AddCredsLoop(creds, account, ak, sk, token, regions);
            && r.Some?
            && |r.value| == |creds| + |regions|
            && r.value[..|creds|] == creds
            && forall i :: 0 <= i < |regions| ==> r.value[|creds| + i] == Cred(ak, sk, token, regions[i], account)
  {
    if |regions| > 0 {
      var init := regions[..|regions| - 1];
      AddCredsLoopAppends(creds, account, ak, sk, token, init);
      var c := AddCredsLoop(creds, account, ak, sk, token, init).value;
      var r := c + [Cred(ak, sk, token, regions[|regions| - 1], account)];
      assert r[..|creds|] == c[..|creds|];
      forall i | 0 <= i < |regions| ensures r[|creds| + i] == Cred(ak, sk, token, regions[i], account) {
        if i < |init| {
          assert init[i] == regions[i];
        }
      }
    }
  }

  /** A falsy region anywhere in the list leaves the explicit-region path. */
  lemma {:induction false} AddCredsLoopNeedsTruthy(creds: seq<Cred>, account: string, ak: string, sk: string,
                                                   token: Option<string>, regions: seq<string>)
    ensures AddCredsLoop(creds, account, ak, sk, token, regions).Some? ==> AllTruthy(regions)
  {
    if |regions| > 0 {
      var init := regions[..|regions| - 1];
      AddCredsLoopNeedsTruthy(creds, account, ak, sk, token, init);
      if AddCredsLoop(creds, account, ak, sk, token, regions).Some? {
        forall i | 0 <= i < |regions| ensures |regions[i]| > 0 {
          if i < |init| {
            assert init[i] == regions[i];
          }
        }
      }
    }
  }

  /** `role.get('region', regions)`: the role's own list, else the global one. */
  function RoleRegions(role: Role, regions: seq<string>): seq<string> {
    role.region.GetOr(regions)
  }

  /** The role loop of `_login`: credentials accumulate across roles, in role order. */
  function AddRoles(roles: seq<Role>, regions: seq<string>, sts: Role -> Assumed): Option<seq<Cred>> {
    if |roles| == 0 then Some([])
    else match AddRoles(roles[..|roles| - 1], regions, sts)
      case None => None
      case Some(c) =>
        var role := roles[|roles| - 1];
        var a := sts(role);
        AddCredsRegions(c, role.account, a.accessKeyId, a.secretAccessKey, Some(a.sessionToken),
                        RoleRegions(role, regions))
  }

  /** The credentials of one role with truthy regions. */
  function RoleCreds(role: Role, regions: seq<string>, sts: Role -> Assumed): (r: seq<Cred>) {
    var a := sts(role);
    seq(|RoleRegions(role, regions)|, i requires 0 <= i < |RoleRegions(role, regions)| =>
      Cred(a.accessKeyId, a.secretAccessKey, Some(a.sessionToken), RoleRegions(role, regions)[i], role.account))
  }

  /** Every role has a non-empty list of truthy regions to use. */
  predicate ExplicitRegions(roles: seq<Role>, regions: seq<string>) {
    forall i :: 0 <= i < |roles| ==>
      |RoleRegions(roles[i], regions)| > 0 && AllTruthy(RoleRegions(roles[i], regions))
  }

  /** With explicit regions everywhere, the credentials are each role's
      credentials, concatenated in role order: `creds` only grows, by
      appending. */
  lemma {:induction false} AddRolesConcatenates(roles: seq<Role>, regions: seq<string>, sts: Role -> Assumed)
    requires ExplicitRegions(roles, regions)
    ensures var r := AddRoles(roles, regions, sts);
            && r.Some?
            && (|roles| > 0 ==>
                  var init := AddRoles(roles[..|roles| - 1], regions, sts);
                  init.Some? && r.value == init.value + RoleCreds(roles[|roles| - 1], regions, sts))
  {
    if |roles| > 0 {
      var init := roles[..|roles| - 1];
      var role := roles[|roles| - 1];
      assert ExplicitRegions(init, regions) by {
        forall i | 0 <= i < |init| ensures |RoleRegions(init[i], regions)| > 0 && AllTruthy(RoleRegions(init[i], regions)) {
          assert init[i] == roles[i];
        }
      }
      AddRolesConcatenates(init, regions, sts);
      var c := AddRoles(init, regions, sts).value;
      var a := sts(role);
      var rr := RoleRegions(role, regions);
      AddCredsLoopAppends(c, role.account, a.accessKeyId, a.secretAccessKey, Some(a.sessionToken), rr);
      var r := AddCredsLoop(c, role.account, a.accessKeyId, a.secretAccessKey, Some(a.sessionToken), rr).value;
      assert r == c + RoleCreds(role, regions, sts) by {
        assert r[..|c|] == c;
        var tail := RoleCreds(role, regions, sts);
        assert |r| == |c| + |tail|;
        forall i | 0 <= i < |r| ensures r[i] == (c + tail)[i] {
          if i >= |c| {
            assert r[|c| + (i - |c|)] == tail[i - |c|];
          } else {
            assert r[i] == r[..|c|][i];
          }
        }
      }
    }
  }

  /** One EC2 collector per credential. */
  datatype Client = Client(accountId: string, handleName: string, cred: Cred)

  /** `cred['account_id'] or 0`, as `format` prints it. */
  function AccountLabel(account: string): string {
    if |account| > 0 then account else "0"
  }

  function Clients(name: string, creds: seq<Cred>): (r: seq<Client>)
    ensures |r| == |creds|
    ensures forall i :: 0 <= i < |creds| ==>
              r[i].cred == creds[i] && r[i].handleName == name + "@" + AccountLabel(creds[i].accountId)
  {
    seq(|creds|, i requires 0 <= i < |creds| =>
      Client(AccountLabel(creds[i].accountId), name + "@" + AccountLabel(creds[i].accountId), creds[i]))
  }

  /** `_login` after the STS client is set up: None where region discovery would run. */
  function Login(name: string, roles: Option<seq<Role>>, regions: Option<seq<string>>, sts: Role -> Assumed)
    : Option<seq<Client>>
  {
    var rs := roles.GetOr([]);
    match AddRoles(rs, regions.GetOr([]), sts)
    case None => None
    case Some(creds) => Some(Clients(name, creds))
  }

  /** No roles: no credentials and no clients. */
  lemma NoRolesNoClients(name: string, regions: Option<seq<string>>, sts: Role -> Assumed)
    ensures Login(name, None, regions, sts) == Some([])
    ensures Login(name, Some([]), regions, sts) == Some([])
  {
  }

  /** `_fetch`: each client's records in client order; the first error is re-raised. */
  function Fetch<T>(results: seq<Result<seq<T>>>): Result<seq<T>> {
    if |results| == 0 then Success([])
    else match Fetch(results[..|results| - 1])
      case Failure(e) => Failure(e)
      case Success(acc) =>
        match results[|results| - 1]
        case Failure(e) => Failure(e)
        case Success(data) => Success(acc + data)
  }

  function ConcatAll<T>(results: seq<Result<seq<T>>>): seq<T>
    requires forall i :: 0 <= i < |results| ==> results[i].Success?
  {
    if |results| == 0 then [] else ConcatAll(results[..|results| - 1]) + results[|results| - 1].value
  }

  /** `_fetch` succeeds iff every client does, with the concatenation of
      their records; otherwise it raises the error of the first failing client. */
  lemma {:induction false} FetchConcatenates<T>(results: seq<Result<seq<T>>>)
    ensures Fetch(results).Success? <==> forall i :: 0 <= i < |results| ==> results[i].Success?
    ensures Fetch(results).Success? ==> Fetch(results).value == ConcatAll(results)
    ensures Fetch(results).Failure? ==>
              exists k :: 0 <= k < |results| && results[k].Failure? && Fetch(results).error == results[k].error
                          && forall i :: 0 <= i < k ==> results[i].Success?
  {
    if |results| > 0 {
      var init := results[..|results| - 1];
      FetchConcatenates(init);
      assert forall i :: 0 <= i < |init| ==> init[i] == results[i];
      if Fetch(init).Failure? {
        var k :| 0 <= k < |init| && init[k].Failure? && Fetch(init).error == init[k].error
                 && forall i :: 0 <= i < k ==> init[i].Success?;
        assert results[k] == init[k];
      } else if results[|results| - 1].Failure? {
        assert forall i :: 0 <= i < |results| - 1 ==> results[i].Success?;
      }
    }
  }

  /** No clients: `_fetch` returns the empty list. */
  lemma NoClientsFetchEmpty<T>()
    ensures Fetch<T>([]) == Success([])
  {
  }
}
