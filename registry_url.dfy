/** Derivation of the ECR registry host name from an AWS region and account. */
module RegistryUrl {

  const EcrInfix := ".dkr.ecr."
  const AwsDomain := ".amazonaws.com"
  const AwsChinaDomain := ".amazonaws.com.cn"

  /** Go's `strings.HasPrefix`. */
  predicate HasPrefix(s: string, prefix: string) {
    |prefix| <= |s| && s[..|prefix|] == prefix
  }

  predicate HasSuffix(s: string, suffix: string) {
    |suffix| <= |s| && s[|s| - |suffix|..] == suffix
  }

  /** Regions of the AWS China partition are the ones whose code starts with "cn". */
  predicate IsChinaRegion(region: string) {
    HasPrefix(region, "cn")
  }

  /** No '.' in the string: true of every AWS account id (twelve digits). */
  predicate NoDot(s: string) {
    forall i :: 0 <= i < |s| ==> s[i] != '.'
  }

  /** The partition's domain: ".amazonaws.com.cn" for China regions, ".amazonaws.com" for all others. */
  function DomainSuffix(region: string): (d: string)
    ensures d == AwsChinaDomain || d == AwsDomain
    ensures d == AwsChinaDomain <==> IsChinaRegion(region)
  {
    if IsChinaRegion(region) then AwsChinaDomain else AwsDomain
  }

  /** `buildEcrRegistryUrl`: total, no I/O. The result is the account, the ECR infix and the region,
      followed by the partition's domain; the three ensures together determine it character by character. */
  function BuildEcrRegistryUrl(region: string, account: string): (url: string)
    ensures HasPrefix(url, account + EcrInfix + region)
    ensures |url| == |account + EcrInfix + region| + (if IsChinaRegion(region) then |AwsChinaDomain| else |AwsDomain|)
    ensures HasSuffix(url, if IsChinaRegion(region) then AwsChinaDomain else AwsDomain)
  {
    account + EcrInfix + region + DomainSuffix(region)
  }

  /** The China domain is used exactly for China regions: a host name ends in ".amazonaws.com.cn"
      if and only if its region starts with "cn". */
  lemma {:induction false} ChinaDomainIffChinaRegion(region: string, account: string)
    ensures HasSuffix(BuildEcrRegistryUrl(region, account), AwsChinaDomain) <==> IsChinaRegion(region)
  {
    var url := BuildEcrRegistryUrl(region, account);
    assert HasSuffix(url, AwsChinaDomain) ==> url[|url| - 1] == 'n';
    assert !IsChinaRegion(region) ==> url[|url| - 1] == 'm';
  }

  /** In an account id without dots followed by text that starts with '.', the first '.' sits
      right after the account. */
  lemma {:induction false} FirstDotAfterAccount(a: string, t: string)
    requires NoDot(a) && |t| > 0 && t[0] == '.'
    ensures (a + t)[|a|] == '.'
    ensures forall i :: 0 <= i < |a| ==> (a + t)[i] != '.'
  {
    forall i | 0 <= i < |a| ensures (a + t)[i] != '.' {
      assert (a + t)[i] == a[i];
    }
  }

  /** An account id without dots is recovered as everything before the first '.'. */
  lemma {:induction false} SplitAtFirstDot(a1: string, t1: string, a2: string, t2: string)
    requires NoDot(a1) && NoDot(a2)
    requires |t1| > 0 && t1[0] == '.' && |t2| > 0 && t2[0] == '.'
    requires a1 + t1 == a2 + t2
    ensures a1 == a2 && t1 == t2
  {
    var u := a1 + t1;
    FirstDotAfterAccount(a1, t1);
    FirstDotAfterAccount(a2, t2);
    assert |a1| == |a2|;
    assert a1 == u[..|a1|] == a2;
    assert t1 == u[|a1|..] == t2;
  }

  /** A region followed by its domain determines the region: the last character
      ('n' or 'm') tells the two domains apart. */
  lemma {:induction false} RegionRecoverable(r1: string, r2: string)
    requires r1 + DomainSuffix(r1) == r2 + DomainSuffix(r2)
    ensures r1 == r2
  {
    var d1, d2 := DomainSuffix(r1), DomainSuffix(r2);
    var u := r1 + d1;
    assert u[|u| - 1] == d1[|d1| - 1];
    assert u[|u| - 1] == d2[|d2| - 1];
    assert d1 == d2;
    assert r1 == u[..|r1|] == r2;
  }

  /** The host name splits into the account and a remainder that starts with '.'. */
  lemma {:induction false} UrlSplits(region: string, account: string)
    ensures BuildEcrRegistryUrl(region, account) == account + (EcrInfix + (region + DomainSuffix(region)))
  {
    Associative(account, EcrInfix, region + DomainSuffix(region));
    Associative(account + EcrInfix, region, DomainSuffix(region));
  }

  lemma Associative(x: string, y: string, z: string)
    ensures x + y + z == x + (y + z)
  {
  }

  /** For account ids without dots, two invocations with different (region, account) never
      target the same registry: the host name determines both inputs. */
  lemma {:induction false} DistinctInputsDistinctRegistries(r1: string, a1: string, r2: string, a2: string)
    requires NoDot(a1) && NoDot(a2)
    requires BuildEcrRegistryUrl(r1, a1) == BuildEcrRegistryUrl(r2, a2)
    ensures r1 == r2 && a1 == a2
  {
    var t1 := r1 + DomainSuffix(r1);
    var t2 := r2 + DomainSuffix(r2);
    UrlSplits(r1, a1);
    UrlSplits(r2, a2);
    assert EcrInfix[0] == '.';
    SplitAtFirstDot(a1, EcrInfix + t1, a2, EcrInfix + t2);
    assert t1 == (EcrInfix + t1)[|EcrInfix|..] == (EcrInfix + t2)[|EcrInfix|..] == t2;
    RegionRecoverable(r1, r2);
  }

  /** The ECR host name for the commercial region us-west-2. */
  lemma UsWest2Example()
    ensures BuildEcrRegistryUrl("us-west-2", "123456789012") == "123456789012.dkr.ecr.us-west-2.amazonaws.com"
  {
    assert DomainSuffix("us-west-2") == AwsDomain by { assert "us-west-2"[0] == 'u'; }
    assert "123456789012" + EcrInfix == "123456789012.dkr.ecr.";
    assert "123456789012.dkr.ecr." + "us-west-2" == "123456789012.dkr.ecr.us-west-2";
    assert "123456789012.dkr.ecr.us-west-2" + AwsDomain == "123456789012.dkr.ecr.us-west-2.amazonaws.com";
  }

  /** The ECR host name for the China region cn-north-1. */
  lemma CnNorth1Example()
    ensures BuildEcrRegistryUrl("cn-north-1", "123456789012") == "123456789012.dkr.ecr.cn-north-1.amazonaws.com.cn"
  {
    assert DomainSuffix("cn-north-1") == AwsChinaDomain;
    assert "123456789012" + EcrInfix == "123456789012.dkr.ecr.";
    assert "123456789012.dkr.ecr." + "cn-north-1" == "123456789012.dkr.ecr.cn-north-1";
    assert "123456789012.dkr.ecr.cn-north-1" + AwsChinaDomain == "123456789012.dkr.ecr.cn-north-1.amazonaws.com.cn";
  }
}
