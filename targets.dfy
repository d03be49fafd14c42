/**
 * The target records shown in the main window and the pure rules behind the registry
 * operations of PingerTool/Windows/MainWindow.xaml.cs: lookup by address, uniqueness,
 * the column-count rule and the value each successful operation leaves behind.
 */
module Targets {

  /** An IP address (IPv4 or IPv6) by its bytes; IPAddress.Equals compares exactly these. */
  datatype IPAddress = IPAddress(bytes: seq<int>)

  /**
   * One monitored target (PingControlModel). The probe loop that updates the failure
   * counters, the display lines and the last-contact text is not part of this model;
   * these fields are read by the alert tick and carried by every registry operation.
   */
  datatype PingControlModel = PingControlModel(
    displayName: string,
    address: IPAddress,
    showGraph: bool,
    lastContact: string,
    displayLines: seq<string>,
    warningFailures: int,
    timeoutFailures: int,
    alerting: bool,
    hasNotifiedBySpark: bool)

  /** The record CreatePingElement adds: the given name and address, graph shown unless
      hidden, last contact "Just Now", no lines, counters at zero, no alert, no latch. */
  function NewElement(name: string, address: IPAddress, graphHidden: bool): (e: PingControlModel)
    ensures e.displayName == name && e.address == address && e.showGraph == !graphHidden
    ensures e.displayLines == [] && e.warningFailures == 0 && e.timeoutFailures == 0
    ensures !e.alerting && !e.hasNotifiedBySpark
  {
    PingControlModel(name, address, !graphHidden, "Just Now", [], 0, 0, false, false)
  }

  /** Some record of `s` has address `a`. */
  predicate HasAddress(s: seq<PingControlModel>, a: IPAddress)
  {
    exists i :: 0 <= i < |s| && s[i].address == a
  }

  /** No two records of `s` share an address. */
  predicate UniqueAddresses(s: seq<PingControlModel>)
  {
    forall i, j :: 0 <= i < j < |s| ==> s[i].address != s[j].address
  }

  /** The address column of `s`, in order. */
  function Addresses(s: seq<PingControlModel>): (r: seq<IPAddress>)
    ensures |r| == |s| && forall i :: 0 <= i < |s| ==> r[i] == s[i].address
  {
    if |s| == 0 then [] else Addresses(s[..|s| - 1]) + [s[|s| - 1].address]
  }

  /** The (address, name) pairs of `s`, in order: what a project file keeps of a registry. */
  function Entries(s: seq<PingControlModel>): (r: seq<(IPAddress, string)>)
    ensures |r| == |s| && forall i :: 0 <= i < |s| ==> r[i] == (s[i].address, s[i].displayName)
  {
    if |s| == 0 then [] else Entries(s[..|s| - 1]) + [(s[|s| - 1].address, s[|s| - 1].displayName)]
  }

  /** PingWindows.Count(q => q.Address.Equals(a)). */
  function CountAddress(s: seq<PingControlModel>, a: IPAddress): nat
  {
    if |s| == 0 then 0
    else CountAddress(s[..|s| - 1], a) + (if s[|s| - 1].address == a then 1 else 0)
  }

  /** The count the registry uses as its existence test is zero exactly when no record has
      the address, and never exceeds one while addresses are unique. */
  lemma {:induction false} CountAddressMeansPresence(s: seq<PingControlModel>, a: IPAddress)
    ensures CountAddress(s, a) == 0 <==> !HasAddress(s, a)
    ensures UniqueAddresses(s) ==> CountAddress(s, a) <= 1
  {
    if |s| > 0 {
      var init := s[..|s| - 1];
      CountAddressMeansPresence(init, a);
      if HasAddress(init, a) {
        var i :| 0 <= i < |init| && init[i].address == a;
        assert s[i].address == a;
      }
      if HasAddress(s, a) && !HasAddress(init, a) {
        var i :| 0 <= i < |s| && s[i].address == a;
        assert i == |s| - 1;
      }
    }
  }

  /** PingWindows.First(q => q.Address.Equals(a)): the index of the first match. */
  function FirstIndexOf(s: seq<PingControlModel>, a: IPAddress): (i: nat)
    requires HasAddress(s, a)
    ensures i < |s| && s[i].address == a
    ensures forall j :: 0 <= j < i ==> s[j].address != a
  {
    if s[0].address == a then 0
    else
      assert HasAddress(s[1..], a) by {
        var k :| 0 <= k < |s| && s[k].address == a;
        assert s[1..][k - 1].address == a;
      }
      1 + FirstIndexOf(s[1..], a)
  }

  /** The column-count rule: three columns above eight targets, two above one, else one. */
  function ColumnsFor(count: int): (c: int)
    ensures 1 <= c <= 3
    ensures c == 3 <==> count > 8
    ensures c == 1 <==> count <= 1
  {
    if count > 8 then 3 else if count > 1 then 2 else 1
  }

  /** The registry after removing the first record with address `a`. */
  function WithoutFirst(s: seq<PingControlModel>, a: IPAddress): seq<PingControlModel>
    requires HasAddress(s, a)
  {
    var i := FirstIndexOf(s, a);
    s[..i] + s[i + 1..]
  }

  /** The registry after renaming the first record with address `a`. */
  function Renamed(s: seq<PingControlModel>, a: IPAddress, name: string): seq<PingControlModel>
    requires HasAddress(s, a)
  {
    var i := FirstIndexOf(s, a);
    s[i := s[i].(displayName := name)]
  }

  /** The registry after moving the first record with address `a` to address `b`. */
  function Readdressed(s: seq<PingControlModel>, a: IPAddress, b: IPAddress): seq<PingControlModel>
    requires HasAddress(s, a)
  {
    var i := FirstIndexOf(s, a);
    s[i := s[i].(address := b)]
  }

  /** The registry operations of the main window, as requests. */
  datatype RegistryOp =
    | Create(name: string, address: IPAddress, graphHidden: bool)
    | Remove(address: IPAddress)
    | Rename(address: IPAddress, newName: string)
    | Readdress(address: IPAddress, newAddress: IPAddress)
    | ClearAll

  /** Whether an operation succeeds on `s`: create needs an unused address, remove and
      rename a used one, re-addressing a used old address and an unused new one. */
  predicate Succeeds(s: seq<PingControlModel>, op: RegistryOp)
  {
    match op
    case Create(_, a, _) => !HasAddress(s, a)
    case Remove(a) => HasAddress(s, a)
    case Rename(a, _) => HasAddress(s, a)
    case Readdress(a, b) => HasAddress(s, a) && !HasAddress(s, b)
    case ClearAll => true
  }

  /** The registry after an operation; a failed operation changes nothing. */
  function Apply(s: seq<PingControlModel>, op: RegistryOp): seq<PingControlModel>
  {
    if !Succeeds(s, op) then s
    else match op
      case Create(n, a, h) => s + [NewElement(n, a, h)]
      case Remove(a) => WithoutFirst(s, a)
      case Rename(a, n) => Renamed(s, a, n)
      case Readdress(a, b) => Readdressed(s, a, b)
      case ClearAll => []
  }

  /** The registry after a run of operations. */
  function ApplyAll(s: seq<PingControlModel>, ops: seq<RegistryOp>): seq<PingControlModel>
    decreases |ops|
  {
    if |ops| == 0 then s else ApplyAll(Apply(s, ops[0]), ops[1..])
  }

  /** A create appends exactly one new record at the end, and only when the address is new. */
  lemma CreateAppends(s: seq<PingControlModel>, name: string, a: IPAddress, hidden: bool)
    ensures var r := Apply(s, Create(name, a, hidden));
      if HasAddress(s, a) then r == s
      else |r| == |s| + 1 && r[..|s|] == s && r[|s|] == NewElement(name, a, hidden)
  {
  }

  /** Removal takes out exactly the first record with the address and keeps the others in
      order; with unique addresses the address is gone afterwards. */
  lemma {:induction false} RemoveTakesFirst(s: seq<PingControlModel>, a: IPAddress)
    requires HasAddress(s, a)
    ensures var r := Apply(s, Remove(a)); var i := FirstIndexOf(s, a);
      && |r| == |s| - 1
      && (forall j :: 0 <= j < i ==> r[j] == s[j])
      && (forall j :: i <= j < |r| ==> r[j] == s[j + 1])
      && multiset(r) + multiset{s[i]} == multiset(s)
      && (UniqueAddresses(s) ==> !HasAddress(r, a) && UniqueAddresses(r))
  {
    var i := FirstIndexOf(s, a);
    var r := Apply(s, Remove(a));
    assert r == s[..i] + s[i + 1..];
    assert s == s[..i] + [s[i]] + s[i + 1..];
    if UniqueAddresses(s) {
      forall k | 0 <= k < |r| ensures r[k].address != a {
        if k < i {
          assert r[k] == s[k];
        } else {
          assert r[k] == s[k + 1];
        }
      }
    }
  }

  /** Renaming changes the display name of the one matching record and nothing else;
      names need not be unique and the address column is untouched. */
  lemma RenameTouchesOnlyName(s: seq<PingControlModel>, a: IPAddress, name: string)
    requires HasAddress(s, a)
    ensures var r := Apply(s, Rename(a, name)); var i := FirstIndexOf(s, a);
      && |r| == |s|
      && r[i] == s[i].(displayName := name)
      && (forall j :: 0 <= j < |s| && j != i ==> r[j] == s[j])
      && Addresses(r) == Addresses(s)
  {
  }

  /** Re-addressing fails whenever the new address is already used (so also when it equals
      the old one); on success only the matching record's address changes. */
  lemma ReaddressTouchesOnlyAddress(s: seq<PingControlModel>, a: IPAddress, b: IPAddress)
    ensures HasAddress(s, b) ==> Apply(s, Readdress(a, b)) == s
    ensures a == b ==> Apply(s, Readdress(a, b)) == s
    ensures HasAddress(s, a) && !HasAddress(s, b) ==>
      var r := Apply(s, Readdress(a, b)); var i := FirstIndexOf(s, a);
      && |r| == |s| && r[i] == s[i].(address := b)
      && (forall j :: 0 <= j < |s| && j != i ==> r[j] == s[j])
  {
  }

  /** Every registry operation keeps addresses unique. */
  lemma {:induction false} ApplyKeepsUnique(s: seq<PingControlModel>, op: RegistryOp)
    requires UniqueAddresses(s)
    ensures UniqueAddresses(Apply(s, op))
  {
    if Succeeds(s, op) {
      match op
      case Create(n, a, h) =>
        var r := s + [NewElement(n, a, h)];
        forall i, j | 0 <= i < j < |r| ensures r[i].address != r[j].address {
          if j == |s| {
            assert r[i] == s[i];
          }
        }
      case Remove(a) =>
        RemoveTakesFirst(s, a);
      case Rename(a, n) =>
      case Readdress(a, b) =>
        var r := Readdressed(s, a, b);
        var k := FirstIndexOf(s, a);
        forall i, j | 0 <= i < j < |r| ensures r[i].address != r[j].address {
          if i == k {
            assert r[j] == s[j];
          } else if j == k {
            assert r[i] == s[i];
          } else {
            assert r[i] == s[i] && r[j] == s[j];
          }
        }
      case ClearAll =>
    }
  }

  /** Addresses stay unique across any run of registry operations. */
  lemma {:induction false} ApplyAllKeepsUnique(s: seq<PingControlModel>, ops: seq<RegistryOp>)
    requires UniqueAddresses(s)
    ensures UniqueAddresses(ApplyAll(s, ops))
    decreases |ops|
  {
    if |ops| > 0 {
      ApplyKeepsUnique(s, ops[0]);
      ApplyAllKeepsUnique(Apply(s, ops[0]), ops[1..]);
    }
  }
}
