/** The two read-only views over the runtime's container list: `list_cmd`
    keeps the names that start with `win_` and the caller's Discord id
    (bot.py:95), `node` ranks every container by its `cpu_usage` figure,
    highest first, and keeps five (bot.py:106-107). The runtime list is a
    sequence in the order the runtime reports it. */
module Listing {
  import Decimal
  import Launch

  /** A runtime container: its name and its CPU usage, taken as the integer
      `node` ranks by under the key `cpu_usage`. */
  datatype Container = Container(name: string, cpuUsage: int)

  /** How many containers `node` shows. */
  const TopCount: nat := 5

  /** The prefix `list_cmd` filters by: `win_` and the decimal user id. */
  function OwnerPrefix(userId: int): string
  {
    Launch.NamePrefix + Decimal.Show(userId)
  }

  function Names(cs: seq<Container>): (r: seq<string>)
    ensures |r| == |cs|
    ensures forall i :: 0 <= i < |cs| ==> r[i] == cs[i].name
  {
    seq(|cs|, i requires 0 <= i < |cs| => cs[i].name)
  }

  /** `xs` is `ys` with some elements left out, the rest in their order. */
  ghost predicate IsSubsequence<T>(xs: seq<T>, ys: seq<T>)
    decreases |ys|
  {
    if |xs| == 0 then true
    else if |ys| == 0 then false
    else if xs[0] == ys[0] then IsSubsequence(xs[1..], ys[1..])
    else IsSubsequence(xs, ys[1..])
  }

  /** `list_cmd` (bot.py:95): the names of the runtime's containers that
      start with the caller's prefix, in runtime order. */
  function ListOwned(cs: seq<Container>, userId: int): (r: seq<string>)
    ensures forall i :: 0 <= i < |r| ==> Launch.StartsWith(r[i], OwnerPrefix(userId))
    ensures forall c :: c in cs && Launch.StartsWith(c.name, OwnerPrefix(userId)) ==> c.name in r
    ensures IsSubsequence(r, Names(cs))
  {
    if |cs| == 0 then []
    else
      var rest := ListOwned(cs[1..], userId);
      assert Names(cs)[1..] == Names(cs[1..]);
      assert forall c :: c in cs ==> c == cs[0] || c in cs[1..];
      if Launch.StartsWith(cs[0].name, OwnerPrefix(userId)) then [cs[0].name] + rest
      else rest
  }

  /** The listing of a concatenation is the concatenation of the listings, so
      `ListOwned` is the order-preserving filter and nothing else. */
  lemma {:induction false} ListOwnedAppend(a: seq<Container>, b: seq<Container>, userId: int)
    ensures ListOwned(a + b, userId) == ListOwned(a, userId) + ListOwned(b, userId)
    decreases |a|
  {
    if |a| == 0 {
      assert a + b == b;
    } else {
      assert (a + b)[1..] == a[1..] + b;
      ListOwnedAppend(a[1..], b, userId);
    }
  }

  /** A single container is listed exactly when its name has the caller's prefix. */
  lemma ListOwnedSingle(c: Container, userId: int)
    ensures ListOwned([c], userId) == if Launch.StartsWith(c.name, OwnerPrefix(userId)) then [c.name] else []
  {
    assert [c][1..] == [];
  }

  /** Containers are named after the username given to `deploy_win`, but listed
      by Discord user id: a deployed container shows up in a user's list exactly
      when the username itself starts with that user's id. */
  lemma DeployedNameListed(username: string, userId: int)
    ensures Launch.StartsWith(Launch.ContainerName(username), OwnerPrefix(userId))
      <==> Launch.StartsWith(username, Decimal.Show(userId))
  {
    var name := Launch.ContainerName(username);
    var p := Launch.NamePrefix;
    var d := Decimal.Show(userId);
    assert OwnerPrefix(userId) == p + d;
    if Launch.StartsWith(name, p + d) {
      assert name[..|p + d|][|p|..] == d;
      assert username[..|d|] == name[|p|..|p + d|];
    }
    if Launch.StartsWith(username, d) {
      assert name[..|p + d|] == p + username[..|d|];
    }
  }

  /** The prefix test lets one id see another's containers: the listing for
      user 12 includes the container of user 123. */
  lemma ShorterIdSeesLongerId()
    ensures ListOwned([Container("win_123", 0)], 12) == ["win_123"]
  {
    assert Decimal.Show(12) == "12";
    ListOwnedSingle(Container("win_123", 0), 12);
  }

  /** Every pair in order by `cpu_usage`, highest first. */
  ghost predicate SortedByCpu(s: seq<Container>)
  {
    forall i, j :: 0 <= i < j < |s| ==> s[i].cpuUsage >= s[j].cpuUsage
  }

  /** A sorted sequence stays sorted with an element in front that is at
      least as high as every element of it. */
  lemma SortedCons(a: Container, t: seq<Container>)
    requires SortedByCpu(t)
    requires forall e :: e in t ==> e.cpuUsage <= a.cpuUsage
    ensures SortedByCpu([a] + t)
  {
    var r := [a] + t;
    forall i, j | 0 <= i < j < |r| ensures r[i].cpuUsage >= r[j].cpuUsage {
      assert r[j] == t[j - 1];
      if i > 0 {
        assert r[i] == t[i - 1];
      } else {
        assert r[j] in t;
      }
    }
  }

  /** Places `x` in front of the first element whose usage does not exceed its
      own, so `x` stays ahead of the equal elements that followed it. */
  function Insert(x: Container, s: seq<Container>): (r: seq<Container>)
    ensures |r| == |s| + 1
    ensures forall e :: e in r <==> e == x || e in s
    ensures multiset(r) == multiset(s) + multiset{x}
    ensures SortedByCpu(s) ==> SortedByCpu(r)
  {
    if |s| == 0 || s[0].cpuUsage <= x.cpuUsage then
      assert SortedByCpu(s) ==> SortedByCpu([x] + s) by {
        if SortedByCpu(s) { SortedCons(x, s); }
      }
      [x] + s
    else
      var rest := Insert(x, s[1..]);
      assert s == [s[0]] + s[1..];
      assert SortedByCpu(s) ==> SortedByCpu([s[0]] + rest) by {
        if SortedByCpu(s) {
          assert SortedByCpu(s[1..]);
          SortedCons(s[0], rest);
        }
      }
      [s[0]] + rest
  }

  /** `sorted(..., reverse=True)` by `cpu_usage`: a stable sort, highest first. */
  function SortByCpu(cs: seq<Container>): (r: seq<Container>)
    ensures |r| == |cs|
    ensures multiset(r) == multiset(cs)
    ensures SortedByCpu(r)
  {
    if |cs| == 0 then []
    else
      assert cs == [cs[0]] + cs[1..];
      Insert(cs[0], SortByCpu(cs[1..]))
  }

  /** The containers whose usage is exactly `v`, in order. */
  function WithUsage(v: int, s: seq<Container>): seq<Container>
  {
    if |s| == 0 then []
    else (if s[0].cpuUsage == v then [s[0]] else []) + WithUsage(v, s[1..])
  }

  lemma WithUsageCons(v: int, a: Container, t: seq<Container>)
    ensures WithUsage(v, [a] + t) == (if a.cpuUsage == v then [a] else []) + WithUsage(v, t)
  {
    assert ([a] + t)[1..] == t;
  }

  lemma {:induction false} WithUsageAppend(v: int, a: seq<Container>, b: seq<Container>)
    ensures WithUsage(v, a + b) == WithUsage(v, a) + WithUsage(v, b)
    decreases |a|
  {
    if |a| == 0 {
      assert a + b == b;
    } else {
      assert a + b == [a[0]] + (a[1..] + b);
      assert a == [a[0]] + a[1..];
      WithUsageCons(v, a[0], a[1..] + b);
      WithUsageCons(v, a[0], a[1..]);
      WithUsageAppend(v, a[1..], b);
    }
  }

  lemma {:induction false} InsertStable(v: int, x: Container, s: seq<Container>)
    ensures WithUsage(v, Insert(x, s)) == (if x.cpuUsage == v then [x] else []) + WithUsage(v, s)
    decreases |s|
  {
    if |s| == 0 || s[0].cpuUsage <= x.cpuUsage {
      assert Insert(x, s) == [x] + s;
      WithUsageCons(v, x, s);
    } else {
      var rest := Insert(x, s[1..]);
      assert Insert(x, s) == [s[0]] + rest;
      assert s == [s[0]] + s[1..];
      WithUsageCons(v, s[0], rest);
      WithUsageCons(v, s[0], s[1..]);
      InsertStable(v, x, s[1..]);
      if s[0].cpuUsage == v {
        assert WithUsage(v, rest) == WithUsage(v, s[1..]);
      } else {
        assert WithUsage(v, [s[0]] + rest) == WithUsage(v, rest);
        assert WithUsage(v, s) == WithUsage(v, s[1..]);
      }
    }
  }

  /** The sort is stable: containers with equal usage keep their runtime order,
      as Python's `sorted` guarantees also under `reverse=True`. */
  lemma {:induction false} SortStable(v: int, cs: seq<Container>)
    ensures WithUsage(v, SortByCpu(cs)) == WithUsage(v, cs)
    decreases |cs|
  {
    if |cs| != 0 {
      var rest := SortByCpu(cs[1..]);
      assert SortByCpu(cs) == Insert(cs[0], rest);
      SortStable(v, cs[1..]);
      InsertStable(v, cs[0], rest);
      assert cs == [cs[0]] + cs[1..];
      WithUsageCons(v, cs[0], cs[1..]);
    }
  }

  /** `most_used` in `node` (bot.py:107): the sorted list cut to its first five. */
  function TopByCpu(cs: seq<Container>): (r: seq<Container>)
    ensures |r| == if |cs| < TopCount then |cs| else TopCount
    ensures SortedByCpu(r)
    ensures multiset(r) <= multiset(cs)
    ensures forall x, y :: x in r && y in multiset(cs) - multiset(r) ==> y.cpuUsage <= x.cpuUsage
    ensures r == SortByCpu(cs)[..|r|]
  {
    var s := SortByCpu(cs);
    var k := if |cs| < TopCount then |cs| else TopCount;
    SortedPrefix(s, k);
    SplitMultiset(s, k);
    CutBound(s, k);
    s[..k]
  }

  lemma SortedPrefix(s: seq<Container>, k: nat)
    requires SortedByCpu(s) && k <= |s|
    ensures SortedByCpu(s[..k])
  {
    forall i, j | 0 <= i < j < k ensures s[..k][i].cpuUsage >= s[..k][j].cpuUsage {
      assert s[..k][i] == s[i] && s[..k][j] == s[j];
    }
  }

  lemma SplitMultiset(s: seq<Container>, k: nat)
    requires k <= |s|
    ensures multiset(s[..k]) <= multiset(s)
    ensures multiset(s) - multiset(s[..k]) == multiset(s[k..])
  {
    assert s == s[..k] + s[k..];
    assert multiset(s) == multiset(s[..k]) + multiset(s[k..]);
  }

  /** Cutting a sorted sequence leaves no element behind the cut above any
      element in front of it. */
  lemma CutBound(s: seq<Container>, k: nat)
    requires SortedByCpu(s) && k <= |s|
    ensures forall x, y :: x in s[..k] && y in multiset(s[k..]) ==> y.cpuUsage <= x.cpuUsage
  {
    forall x, y | x in s[..k] && y in multiset(s[k..])
      ensures y.cpuUsage <= x.cpuUsage
    {
      var i :| 0 <= i < k && s[..k][i] == x;
      assert y in s[k..];
      var j :| 0 <= j < |s| - k && s[k..][j] == y;
      assert s[i] == x && s[k + j] == y;
    }
  }

  /** Among containers of equal usage, the ones `node` shows are the first
      ones the runtime reported. */
  lemma TopKeepsTieOrder(v: int, cs: seq<Container>)
    ensures var t := WithUsage(v, TopByCpu(cs));
      |t| <= |WithUsage(v, cs)| && t == WithUsage(v, cs)[..|t|]
  {
    var s := SortByCpu(cs);
    var top := TopByCpu(cs);
    var t := WithUsage(v, top);
    var rest := WithUsage(v, s[|top|..]);
    assert s == top + s[|top|..];
    WithUsageAppend(v, top, s[|top|..]);
    SortStable(v, cs);
    assert WithUsage(v, cs) == t + rest;
    assert (t + rest)[..|t|] == t;
  }

  /** The names `node` lists under "Top Containers". */
  function TopNames(cs: seq<Container>): (r: seq<string>)
    ensures |r| <= TopCount
    ensures forall i :: 0 <= i < |r| ==> r[i] in Names(cs)
  {
    var top := TopByCpu(cs);
    assert forall i :: 0 <= i < |top| ==> top[i] in multiset(cs);
    Names(top)
  }
}
