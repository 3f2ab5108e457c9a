/** Matching the Wi-Fi clients of an environment with the Wi-Fi devices of an inventory. */
module WifiMatching {
  import opened Sortings
  import opened Wrappers

  datatype Json =
    | Null
    | Bool(b: bool)
    | Number(n: real)
    | Text(text: string)
    | Array(items: seq<Json>)
    | Object(fields: map<string, Json>)

  type Entry = map<string, Json>

  // What .get("band") answers, up to Python's equality: truth values are numbers, a band that is not
  // there is null.  Arrays and objects cannot be looked up in a set, so nothing ever compares two.
  datatype Name = Compound | NoBand | Numeric(n: real) | Named(text: string)

  const BAND := "band"
  const DUAL := Named("dual")

  datatype MergeError = TooFewDevices | TypeError | NoDeviceFor(client: Entry)

  function Band(entry: Entry): Name {
    if BAND !in entry then NoBand
    else
      match entry[BAND]
      case Null => NoBand
      case Bool(b) => Numeric(if b then 1.0 else 0.0)
      case Number(n) => Numeric(n)
      case Text(text) => Named(text)
      case Array(_) => Compound
      case Object(_) => Compound
  }

  function Bands(entries: seq<Entry>): (bands: seq<Name>)
    ensures |bands| == |entries| && forall i :: 0 <= i < |entries| ==> bands[i] == Band(entries[i])
  {
    seq(|entries|, i requires 0 <= i < |entries| => Band(entries[i]))
  }

  /** Only numbers compare with numbers and text with text, but one entry alone is sorted without comparing anything. */
  predicate Sortable(entries: seq<Entry>) {
    || |entries| < 2
    || (forall i :: 0 <= i < |entries| ==> Band(entries[i]).Numeric?)
    || (forall i :: 0 <= i < |entries| ==> Band(entries[i]).Named?)
  }

  predicate Hashable(entries: seq<Entry>) {
    forall i :: 0 <= i < |entries| ==> !Band(entries[i]).Compound?
  }

  /** No comparison and no look-up raises; with no client, no device's band is looked up. */
  predicate Workable(clients: seq<Entry>, devices: seq<Entry>) {
    Sortable(clients) && Sortable(devices) && (clients == [] || (Hashable(clients) && Hashable(devices)))
  }

  /** Lexicographic order, as strings compare. */
  predicate NoLaterThan(a: string, b: string) {
    a == [] || (b != [] && (a[0] < b[0] || (a[0] == b[0] && NoLaterThan(a[1..], b[1..]))))
  }

  // Names of different kinds are never sorted together, so their order does not matter.
  predicate AtMost(a: Name, b: Name) {
    match a
    case Compound => true
    case NoBand => !b.Compound?
    case Numeric(m) => b.Named? || (b.Numeric? && m <= b.n)
    case Named(text) => b.Named? && NoLaterThan(text, b.text)
  }

  lemma {:induction false} TextOrderIsTotal(a: string, b: string)
    ensures NoLaterThan(a, b) || NoLaterThan(b, a)
    ensures NoLaterThan(a, b) && NoLaterThan(b, a) ==> a == b
  {
    if a != [] && b != [] {
      TextOrderIsTotal(a[1..], b[1..]);
      assert a == [a[0]] + a[1..] && b == [b[0]] + b[1..];
    }
  }

  lemma {:induction false} TextOrderIsTransitive(a: string, b: string, c: string)
    requires NoLaterThan(a, b) && NoLaterThan(b, c)
    ensures NoLaterThan(a, c)
  {
    if a != [] && a[0] == b[0] == c[0] {
      TextOrderIsTransitive(a[1..], b[1..], c[1..]);
    }
  }

  lemma OrderIsTotal(a: Name, b: Name)
    ensures AtMost(a, b) || AtMost(b, a)
    ensures AtMost(a, b) && AtMost(b, a) ==> a == b
  {
    if a.Named? && b.Named? {
      TextOrderIsTotal(a.text, b.text);
    }
  }

  lemma OrderIsTransitive(a: Name, b: Name, c: Name)
    requires AtMost(a, b) && AtMost(b, c)
    ensures AtMost(a, c)
  {
    if a.Named? {
      TextOrderIsTransitive(a.text, b.text, c.text);
    }
  }

  predicate Above(band: Name) {
    !AtMost(band, DUAL)
  }

  /** Which devices can serve a client. */
  predicate Fits(device: Name, client: Name) {
    device == client || device == DUAL
  }

  // ---- the stable sort by band

  predicate SortsBefore(a: Entry, b: Entry) {
    AtMost(Band(a), Band(b))
  }

  function SortByBand(entries: seq<Entry>): seq<Entry> {
    Sorted(entries, SortsBefore)
  }

  ghost predicate InOrder(bands: seq<Name>) {
    forall i :: 0 < i < |bands| ==> AtMost(bands[i - 1], bands[i])
  }

  lemma {:induction false} OrderOfPair(bands: seq<Name>, i: nat, j: nat)
    requires InOrder(bands) && i <= j < |bands|
    ensures AtMost(bands[i], bands[j])
    decreases j
  {
    if i == j {
      OrderIsTotal(bands[i], bands[i]);
    } else {
      OrderOfPair(bands, i, j - 1);
      OrderIsTransitive(bands[i], bands[j - 1], bands[j]);
    }
  }

  lemma BandsArePreordered()
    ensures TotalPreorder(SortsBefore)
  {
    forall x, y ensures SortsBefore(x, y) || SortsBefore(y, x) {
      OrderIsTotal(Band(x), Band(y));
    }
    forall x, y, z | SortsBefore(x, y) && SortsBefore(y, z) ensures SortsBefore(x, z) {
      OrderIsTransitive(Band(x), Band(y), Band(z));
    }
  }

  lemma SortIsOrdered(entries: seq<Entry>)
    ensures InOrder(Bands(SortByBand(entries))) && multiset(SortByBand(entries)) == multiset(entries)
    ensures |SortByBand(entries)| == |entries| && forall entry :: entry in SortByBand(entries) <==> entry in entries
  {
    BandsArePreordered();
    Sortings.SortIsOrdered(entries, SortsBefore);
    assert forall entry :: entry in SortByBand(entries) <==> entry in multiset(SortByBand(entries));
    assert forall entry :: entry in entries <==> entry in multiset(entries);
  }

  /** Entries of one band are taken in the order they are listed. */
  lemma SortIsStable(entries: seq<Entry>, entry: Entry)
    ensures Likes(SortByBand(entries), entry, SortsBefore) == Likes(entries, entry, SortsBefore)
  {
    BandsArePreordered();
    Sortings.SortIsStable(entries, entry, SortsBefore);
  }

  // ---- the greedy merge

  function Without<T>(s: seq<T>, i: nat): seq<T>
    requires i < |s|
  {
    s[..i] + s[i + 1..]
  }

  /** Index, at or after a given one, of the first device that fits, or the number of devices. */
  function FitFrom(devices: seq<Entry>, client: Name, at: nat): (i: nat)
    requires at <= |devices|
    ensures at <= i <= |devices|
    ensures i < |devices| ==> Fits(Band(devices[i]), client)
    decreases |devices| - at
  {
    if at == |devices| || Fits(Band(devices[at]), client) then at else FitFrom(devices, client, at + 1)
  }

  function FirstFit(devices: seq<Entry>, client: Entry): nat {
    FitFrom(devices, Band(client), 0)
  }

  lemma {:induction false} FitIsNoLater(devices: seq<Entry>, client: Name, at: nat, k: nat)
    requires at <= k < |devices| && Fits(Band(devices[k]), client)
    ensures FitFrom(devices, client, at) <= k
    decreases |devices| - at
  {
    if !Fits(Band(devices[at]), client) {
      FitIsNoLater(devices, client, at + 1, k);
    }
  }

  /** Each client in turn takes the first device left that fits; its fields override the device's. */
  function Greedy(clients: seq<Entry>, devices: seq<Entry>): Result<seq<Entry>, MergeError>
    decreases |clients|
  {
    if clients == [] then Success([])
    else
      var i := FirstFit(devices, clients[0]);
      if i == |devices| then Failure(NoDeviceFor(clients[0]))
      else
        var rest := Greedy(clients[1..], Without(devices, i));
        if rest.Success? then Success([devices[i] + clients[0]] + rest.value) else rest
  }

  function Merge(devices: seq<Entry>, clients: seq<Entry>): Result<seq<Entry>, MergeError> {
    if |devices| < |clients| then Failure(TooFewDevices)
    else if !Workable(clients, devices) then Failure(TypeError)
    else Greedy(SortByBand(clients), SortByBand(devices))
  }

  /** What is still to come once some clients have been merged. */
  function Onwards(merged: seq<Entry>, rest: Result<seq<Entry>, MergeError>): Result<seq<Entry>, MergeError> {
    if rest.Success? then Success(merged + rest.value) else rest
  }

  lemma MergingOneMore(merged: seq<Entry>, clients: seq<Entry>, n: nat, devices: seq<Entry>)
    requires n < |clients|
    ensures var i := FirstFit(devices, clients[n]);
            Onwards(merged, Greedy(clients[n..], devices))
            == if i == |devices| then Failure(NoDeviceFor(clients[n]))
               else Onwards(merged + [devices[i] + clients[n]], Greedy(clients[n + 1..], Without(devices, i)))
  {
    assert clients[n..][1..] == clients[n + 1..];
    var i := FirstFit(devices, clients[n]);
    if i < |devices| {
      var rest := Greedy(clients[n + 1..], Without(devices, i));
      assert rest.Success? ==> merged + ([devices[i] + clients[n]] + rest.value) == merged + [devices[i] + clients[n]] + rest.value;
    }
  }

  /** An empty entry would not be taken off the list, but only a lone device can be empty. */
  predicate Removable(devices: seq<Entry>) {
    forall j :: 0 <= j < |devices| ==> devices[j] != map[]
  }

  predicate Sturdy(entries: seq<Entry>) {
    |entries| < 2 || (Hashable(entries) && Removable(entries))
  }

  /** Sorting leaves only a lone client or device with a band that is missing or cannot be looked up. */
  lemma SortedAreFine(entries: seq<Entry>)
    requires Sortable(entries)
    ensures Sturdy(SortByBand(entries)) && (Hashable(SortByBand(entries)) <==> Hashable(entries))
  {
    var sorted := SortByBand(entries);
    SortIsOrdered(entries);
    assert forall j :: 0 <= j < |sorted| ==> sorted[j] in sorted;
    assert forall j :: 0 <= j < |entries| ==> entries[j] in entries;
    assert Hashable(entries) ==> Hashable(sorted);
    assert Hashable(sorted) ==> Hashable(entries);
  }

  /** The search of the inner loop. */
  method FindDevice(devices: seq<Entry>, client: Entry) returns (i: nat, raises: bool)
    ensures !Band(client).Compound? && Hashable(devices) ==> !raises && i == FirstFit(devices, client)
    ensures devices != [] && (Band(client).Compound? || Band(devices[0]).Compound?) ==> raises
  {
    i, raises := 0, false;
    while i < |devices|
      invariant i <= |devices| && FitFrom(devices, Band(client), i) == FirstFit(devices, client)
      invariant i > 0 ==> !Band(client).Compound? && !Band(devices[0]).Compound?
    {
      if Band(client).Compound? || Band(devices[i]).Compound? {
        raises := true;
        return;
      }
      if Band(devices[i]) == Band(client) || Band(devices[i]) == DUAL {
        return;
      }
      i := i + 1;
    }
  }

  method MergeWithWifiConfig(wifiDevices: seq<Entry>, wifiClients: Option<seq<Entry>>) returns (r: Result<seq<Entry>, MergeError>)
    ensures r == if wifiClients.None? then Success([]) else Merge(wifiDevices, wifiClients.value)
  {
    if wifiClients.None? {
      return Success([]);
    }
    if |wifiDevices| < |wifiClients.value| {
      return Failure(TooFewDevices);
    }
    if !Sortable(wifiClients.value) || !Sortable(wifiDevices) {
      return Failure(TypeError);
    }
    SortIsOrdered(wifiClients.value);
    SortIsOrdered(wifiDevices);
    SortedAreFine(wifiClients.value);
    SortedAreFine(wifiDevices);
    r := MergeSorted(SortByBand(wifiDevices), SortByBand(wifiClients.value));
  }

  lemma WithoutKeeps(devices: seq<Entry>, i: nat)
    requires i < |devices|
    ensures Hashable(devices) ==> Hashable(Without(devices, i))
    ensures Removable(devices) ==> Removable(Without(devices, i))
  {
  }

  /** A first client that raises nothing has shown that nothing will. */
  lemma FirstLookUpDecides(clients: seq<Entry>, devices: seq<Entry>)
    requires clients != [] && |clients| <= |devices| && Sturdy(clients) && Sturdy(devices)
    requires !Band(clients[0]).Compound? && !Band(devices[0]).Compound?
    ensures Hashable(clients) && Hashable(devices)
  {
  }

  /** The loops over the two sorted lists. */
  method MergeSorted(sortedDevices: seq<Entry>, clients: seq<Entry>) returns (r: Result<seq<Entry>, MergeError>)
    requires |clients| <= |sortedDevices| && Sturdy(clients) && Sturdy(sortedDevices)
    ensures r == if clients == [] || (Hashable(clients) && Hashable(sortedDevices)) then Greedy(clients, sortedDevices) else Failure(TypeError)
  {
    var merged: seq<Entry> := [];
    var devices := sortedDevices;
    assert clients[0..] == clients;
    assert Greedy(clients, devices).Success? ==> [] + Greedy(clients, devices).value == Greedy(clients, devices).value;
    for n := 0 to |clients|
      invariant n == 0 ==> devices == sortedDevices
      invariant n > 0 ==> Hashable(clients) && Hashable(sortedDevices)
      invariant (Hashable(sortedDevices) ==> Hashable(devices)) && (|clients| < 2 || Removable(devices))
      invariant Greedy(clients, sortedDevices) == Onwards(merged, Greedy(clients[n..], devices))
    {
      var client := clients[n];
      MergingOneMore(merged, clients, n, devices);
      var i, raises := FindDevice(devices, client);
      if raises {
        return Failure(TypeError);
      }
      if n == 0 {
        FirstLookUpDecides(clients, devices);
      }
      if i == |devices| {
        return Failure(NoDeviceFor(client));
      }
      merged := merged + [devices[i] + client];
      if devices[i] != map[] {
        WithoutKeeps(devices, i);
        devices := Without(devices, i);
      } else {
        assert clients[n + 1..] == [];
      }
    }
    assert merged + [] == merged;
    return Success(merged);
  }

  // ---- assignments

  /** One device for each client, each fitting, and no device of the inventory used more often than it occurs. */
  ghost predicate IsAssignment(clients: seq<Entry>, devices: seq<Entry>, chosen: seq<Entry>) {
    && |chosen| == |clients|
    && multiset(chosen) <= multiset(devices)
    && forall i :: 0 <= i < |clients| ==> Fits(Band(chosen[i]), Band(clients[i]))
  }

  ghost predicate Assignable(clients: seq<Entry>, devices: seq<Entry>) {
    exists chosen :: IsAssignment(clients, devices, chosen)
  }

  lemma WithoutBag<T>(s: seq<T>, i: nat)
    requires i < |s|
    ensures multiset(Without(s, i)) == multiset(s) - multiset{s[i]} && |Without(s, i)| == |s| - 1
    ensures multiset(s) == multiset(Without(s, i)) + multiset{s[i]}
  {
    assert s == s[..i] + [s[i]] + s[i + 1..];
  }

  function Merged(clients: seq<Entry>, chosen: seq<Entry>): seq<Entry>
    requires |chosen| == |clients|
  {
    seq(|clients|, i requires 0 <= i < |clients| => chosen[i] + clients[i])
  }

  lemma AssignmentGrows(clients: seq<Entry>, devices: seq<Entry>, i: nat, rest: seq<Entry>)
    requires clients != [] && i < |devices| && Fits(Band(devices[i]), Band(clients[0]))
    requires IsAssignment(clients[1..], Without(devices, i), rest)
    ensures IsAssignment(clients, devices, [devices[i]] + rest)
  {
    var chosen := [devices[i]] + rest;
    BagGrows(devices, i, rest);
    forall j | 0 <= j < |clients| ensures Fits(Band(chosen[j]), Band(clients[j])) {
      if j > 0 {
        assert chosen[j] == rest[j - 1] && clients[j] == clients[1..][j - 1];
      }
    }
  }

  lemma BagGrows<T>(s: seq<T>, i: nat, rest: seq<T>)
    requires i < |s| && multiset(rest) <= multiset(Without(s, i))
    ensures multiset([s[i]] + rest) <= multiset(s)
  {
    WithoutBag(s, i);
    assert multiset([s[i]] + rest) == multiset{s[i]} + multiset(rest);
  }

  lemma MergedGrows(clients: seq<Entry>, device: Entry, rest: seq<Entry>)
    requires clients != [] && |rest| == |clients| - 1
    ensures Merged(clients, [device] + rest) == [device + clients[0]] + Merged(clients[1..], rest)
  {
  }

  /** A merge is an assignment: every client of the sorted list got a device of its own and was merged into it once. */
  lemma {:induction false} GreedyIsSound(clients: seq<Entry>, devices: seq<Entry>) returns (chosen: seq<Entry>)
    requires Greedy(clients, devices).Success?
    ensures IsAssignment(clients, devices, chosen)
    ensures Greedy(clients, devices).value == Merged(clients, chosen)
    decreases |clients|
  {
    if clients == [] {
      chosen := [];
    } else {
      var i := FirstFit(devices, clients[0]);
      var rest := GreedyIsSound(clients[1..], Without(devices, i));
      chosen := [devices[i]] + rest;
      AssignmentGrows(clients, devices, i, rest);
      MergedGrows(clients, devices[i], rest);
    }
  }

  /** On success each requested client is merged exactly once, into a device of its own. */
  lemma MergeIsSound(devices: seq<Entry>, clients: seq<Entry>)
    requires Merge(devices, clients).Success?
    ensures multiset(SortByBand(clients)) == multiset(clients)
    ensures exists chosen :: IsAssignment(SortByBand(clients), devices, chosen)
                             && Merge(devices, clients).value == Merged(SortByBand(clients), chosen)
  {
    SortIsOrdered(clients);
    SortIsOrdered(devices);
    var chosen := GreedyIsSound(SortByBand(clients), SortByBand(devices));
    assert IsAssignment(SortByBand(clients), devices, chosen);
  }

  // ---- when the devices suffice, counted on bands

  /** The clients left over once every band has served its own fit the "dual" devices. */
  ghost predicate Covers(clients: multiset<Name>, devices: multiset<Name>) {
    |clients - devices[DUAL := 0]| <= devices[DUAL]
  }

  /** Serving a client with a device of its own band changes nothing. */
  lemma TakeSame(rest: multiset<Name>, client: Name, devices: multiset<Name>)
    requires client != DUAL && client in devices
    ensures Covers(rest + multiset{client}, devices) <==> Covers(rest, devices - multiset{client})
  {
    var own := devices[DUAL := 0];
    assert (devices - multiset{client})[DUAL := 0] == own - multiset{client};
    assert rest + multiset{client} - own == rest - (own - multiset{client});
  }

  /** Serving any client with a "dual" device is enough, and right if no device of its own band is left. */
  lemma TakeDual(rest: multiset<Name>, client: Name, devices: multiset<Name>)
    requires DUAL in devices
    ensures Covers(rest, devices - multiset{DUAL}) ==> Covers(rest + multiset{client}, devices)
    ensures (client == DUAL || client !in devices) && Covers(rest + multiset{client}, devices) ==> Covers(rest, devices - multiset{DUAL})
  {
    var own := devices[DUAL := 0];
    assert (devices - multiset{DUAL})[DUAL := 0] == own;
    if client in own {
      assert rest + multiset{client} - own <= (rest - own) + multiset{client};
      BagAtMost(rest + multiset{client} - own, (rest - own) + multiset{client});
    } else {
      assert rest + multiset{client} - own == (rest - own) + multiset{client};
    }
  }

  lemma BagAtMost(a: multiset<Name>, b: multiset<Name>)
    requires a <= b
    ensures |a| <= |b|
  {
    assert b == a + (b - a);
  }

  /** It is also right if all the clients still to come are of the same band. */
  lemma TakeDualForTheLastBand(rest: multiset<Name>, client: Name, devices: multiset<Name>)
    requires DUAL in devices && forall c :: c in rest ==> c == client
    requires Covers(rest + multiset{client}, devices)
    ensures Covers(rest, devices - multiset{DUAL})
  {
    var own := devices[DUAL := 0];
    assert (devices - multiset{DUAL})[DUAL := 0] == own;
    OneBandCount(rest + multiset{client} - own, client);
    OneBandCount(rest - own, client);
  }

  lemma OneBandCount(bag: multiset<Name>, band: Name)
    requires forall b :: b in bag ==> b == band
    ensures |bag| == bag[band]
  {
    assert bag == multiset{}[band := bag[band]];
  }

  lemma NothingFits(rest: multiset<Name>, client: Name, devices: multiset<Name>)
    requires client !in devices && DUAL !in devices
    ensures !Covers(rest + multiset{client}, devices)
  {
    assert client in rest + multiset{client} - devices[DUAL := 0];
  }

  function BandBag(entries: seq<Entry>): multiset<Name> {
    multiset(Bands(entries))
  }

  lemma BandBagOf(entries: seq<Entry>, i: nat)
    requires i < |entries|
    ensures BandBag(Without(entries, i)) == BandBag(entries) - multiset{Band(entries[i])}
    ensures BandBag(entries) == BandBag(Without(entries, i)) + multiset{Band(entries[i])}
    ensures Bands(Without(entries, i)) == Without(Bands(entries), i)
  {
    WithoutBag(Bands(entries), i);
    assert Bands(Without(entries, i)) == Without(Bands(entries), i);
  }

  lemma BandBagHead(entries: seq<Entry>)
    requires entries != []
    ensures BandBag(entries) == BandBag(entries[1..]) + multiset{Band(entries[0])}
    ensures Bands(entries[1..]) == Bands(entries)[1..]
  {
    assert entries[1..] == Without(entries, 0);
    BandBagOf(entries, 0);
    assert Bands(entries[1..]) == Bands(entries)[1..];
  }

  /** If an assignment exists, the counts allow it. */
  lemma {:induction false} AssignmentCovers(clients: seq<Entry>, devices: seq<Entry>, chosen: seq<Entry>)
    requires IsAssignment(clients, devices, chosen)
    ensures Covers(BandBag(clients), BandBag(devices))
    decreases |clients|
  {
    if clients != [] {
      var i := TakesOne(clients, devices, chosen);
      AssignmentCovers(clients[1..], Without(devices, i), chosen[1..]);
      BandBagHead(clients);
      BandBagOf(devices, i);
      ServeWith(BandBag(clients[1..]), Band(clients[0]), BandBag(devices), Band(devices[i]));
    }
  }

  lemma TakesOne(clients: seq<Entry>, devices: seq<Entry>, chosen: seq<Entry>) returns (i: nat)
    requires IsAssignment(clients, devices, chosen) && clients != []
    ensures i < |devices| && Fits(Band(devices[i]), Band(clients[0]))
    ensures IsAssignment(clients[1..], Without(devices, i), chosen[1..])
  {
    i := FindsOne(devices, chosen);
    WithoutBag(devices, i);
    WithoutBag(chosen, 0);
    assert chosen[1..] == Without(chosen, 0);
  }

  lemma FindsOne(devices: seq<Entry>, chosen: seq<Entry>) returns (i: nat)
    requires multiset(chosen) <= multiset(devices) && chosen != []
    ensures i < |devices| && devices[i] == chosen[0]
  {
    assert chosen[0] in multiset(chosen) && chosen[0] in multiset(devices);
    i :| 0 <= i < |devices| && devices[i] == chosen[0];
  }

  lemma ServeWith(rest: multiset<Name>, client: Name, devices: multiset<Name>, d: Name)
    requires d in devices && Fits(d, client) && Covers(rest, devices - multiset{d})
    ensures Covers(rest + multiset{client}, devices)
  {
    if d == DUAL {
      TakeDual(rest, client, devices);
    } else {
      TakeSame(rest, client, devices);
    }
  }

  /** If the counts allow it, an assignment exists: own band first, "dual" otherwise. */
  lemma {:induction false} CoversAssigns(clients: seq<Entry>, devices: seq<Entry>) returns (chosen: seq<Entry>)
    requires Covers(BandBag(clients), BandBag(devices))
    ensures IsAssignment(clients, devices, chosen)
    decreases |clients|
  {
    if clients == [] {
      chosen := [];
    } else {
      var client, bag := Band(clients[0]), BandBag(devices);
      BandBagHead(clients);
      if client !in bag && DUAL !in bag {
        NothingFits(BandBag(clients[1..]), client, bag);
      }
      var d := if client in bag then client else DUAL;
      var i :| 0 <= i < |devices| && Bands(devices)[i] == d;
      if d == DUAL {
        TakeDual(BandBag(clients[1..]), client, bag);
      } else {
        TakeSame(BandBag(clients[1..]), client, bag);
      }
      BandBagOf(devices, i);
      var rest := CoversAssigns(clients[1..], Without(devices, i));
      chosen := PutsFirst(clients, devices, rest, i);
    }
  }

  lemma PutsFirst(clients: seq<Entry>, devices: seq<Entry>, rest: seq<Entry>, i: nat) returns (chosen: seq<Entry>)
    requires clients != [] && i < |devices| && Fits(Band(devices[i]), Band(clients[0]))
    requires IsAssignment(clients[1..], Without(devices, i), rest)
    ensures chosen == [devices[i]] + rest && IsAssignment(clients, devices, chosen)
  {
    WithoutBag(devices, i);
    chosen := [devices[i]] + rest;
    assert multiset(chosen) == multiset{devices[i]} + multiset(rest);
  }

  // ---- the greedy choice

  /** At most one of the bands sorts after "dual". */
  ghost predicate OneAbove(bands: seq<Name>) {
    forall a, b :: a in bands && b in bands && Above(a) && Above(b) ==> a == b
  }

  /** If "dual" comes before a device of the client's own band, all further clients want that band. */
  lemma OnlyOneBandLeft(clients: seq<Name>, devices: seq<Name>, i: nat, k: nat)
    requires clients != [] && InOrder(clients) && InOrder(devices) && OneAbove(clients)
    requires i < k < |devices| && devices[i] == DUAL && devices[k] == clients[0] && clients[0] != DUAL
    ensures forall c :: c in clients ==> c == clients[0]
  {
    OrderOfPair(devices, i, k);
    OrderIsTotal(DUAL, clients[0]);
    assert Above(clients[0]);
    forall c | c in clients ensures c == clients[0] {
      var j :| 0 <= j < |clients| && clients[j] == c;
      OrderOfPair(clients, 0, j);
      if j > 0 && AtMost(c, DUAL) {
        OrderIsTransitive(clients[0], c, DUAL);
      }
    }
  }

  /** When serving a client with device d loses nothing. */
  lemma RightChoice(rest: multiset<Name>, client: Name, devices: multiset<Name>, d: Name)
    requires Covers(rest + multiset{client}, devices) && d in devices && Fits(d, client)
    requires d == DUAL && client != DUAL && client in devices ==> forall c :: c in rest ==> c == client
    ensures Covers(rest, devices - multiset{d})
  {
    if d != DUAL {
      TakeSame(rest, client, devices);
    } else if client == DUAL || client !in devices {
      TakeDual(rest, client, devices);
    } else {
      TakeDualForTheLastBand(rest, client, devices);
    }
  }

  lemma FirstFitExists(clients: seq<Entry>, devices: seq<Entry>)
    requires clients != [] && Covers(BandBag(clients), BandBag(devices))
    ensures FirstFit(devices, clients[0]) < |devices|
  {
    BandBagHead(clients);
    var client, bag := Band(clients[0]), BandBag(devices);
    if client !in bag && DUAL !in bag {
      NothingFits(BandBag(clients[1..]), client, bag);
    }
    var d := if client in bag then client else DUAL;
    var k :| 0 <= k < |devices| && Bands(devices)[k] == d;
    FitIsNoLater(devices, client, 0, k);
  }

  /** "dual" is the first fit although the client's own band is there only when all later clients want that band too. */
  lemma DualFirst(clients: seq<Entry>, devices: seq<Entry>)
    requires clients != [] && InOrder(Bands(clients)) && InOrder(Bands(devices)) && OneAbove(Bands(clients))
    requires FirstFit(devices, clients[0]) < |devices|
    requires Band(devices[FirstFit(devices, clients[0])]) == DUAL && Band(clients[0]) != DUAL && Band(clients[0]) in Bands(devices)
    ensures forall c :: c in BandBag(clients[1..]) ==> c == Band(clients[0])
  {
    var k :| 0 <= k < |devices| && Bands(devices)[k] == Band(clients[0]);
    FitIsNoLater(devices, Band(clients[0]), 0, k);
    OnlyOneBandLeft(Bands(clients), Bands(devices), FirstFit(devices, clients[0]), k);
    BandBagHead(clients);
    forall c | c in BandBag(clients[1..]) ensures c == Band(clients[0]) {
      assert c in BandBag(clients);
      assert c in Bands(clients);
    }
  }

  /** With clients and devices in band order, the first device that fits is never a wrong choice. */
  lemma FirstFitIsSafe(clients: seq<Entry>, devices: seq<Entry>)
    requires clients != [] && InOrder(Bands(clients)) && InOrder(Bands(devices)) && OneAbove(Bands(clients))
    requires Covers(BandBag(clients), BandBag(devices))
    ensures var i := FirstFit(devices, clients[0]);
            i < |devices| && Covers(BandBag(clients[1..]), BandBag(devices) - multiset{Band(devices[i])})
  {
    FirstFitExists(clients, devices);
    BandBagHead(clients);
    var i := FirstFit(devices, clients[0]);
    assert Bands(devices)[i] in BandBag(devices);
    if Band(devices[i]) == DUAL && Band(clients[0]) != DUAL && Band(clients[0]) in Bands(devices) {
      DualFirst(clients, devices);
    }
    RightChoice(BandBag(clients[1..]), Band(clients[0]), BandBag(devices), Band(devices[i]));
  }

  lemma StaysInOrder(bands: seq<Name>, i: nat)
    requires InOrder(bands) && i < |bands|
    ensures InOrder(Without(bands, i))
  {
    if 0 < i < |bands| - 1 {
      OrderIsTransitive(bands[i - 1], bands[i], bands[i + 1]);
    }
  }

  lemma RestStaysOrdered(clients: seq<Entry>)
    requires clients != [] && InOrder(Bands(clients)) && OneAbove(Bands(clients))
    ensures InOrder(Bands(clients[1..])) && OneAbove(Bands(clients[1..]))
  {
    var rest := Bands(clients[1..]);
    assert forall i :: 0 <= i < |rest| ==> rest[i] == Bands(clients)[i + 1];
    assert forall c :: c in rest ==> c in Bands(clients);
    forall i | 0 < i < |rest| ensures AtMost(rest[i - 1], rest[i]) {
      assert AtMost(Bands(clients)[i], Bands(clients)[i + 1]);
    }
  }

  lemma {:induction false} GreedyIsComplete(clients: seq<Entry>, devices: seq<Entry>)
    requires InOrder(Bands(clients)) && InOrder(Bands(devices)) && OneAbove(Bands(clients))
    requires Covers(BandBag(clients), BandBag(devices))
    ensures Greedy(clients, devices).Success?
    decreases |clients|
  {
    if clients != [] {
      var i := FirstFit(devices, clients[0]);
      FirstFitIsSafe(clients, devices);
      BandBagHead(clients);
      BandBagOf(devices, i);
      StaysInOrder(Bands(devices), i);
      RestStaysOrdered(clients);
      GreedyIsComplete(clients[1..], Without(devices, i));
    }
  }

  lemma SameEntriesSameBands(a: seq<Entry>, b: seq<Entry>)
    requires multiset(a) == multiset(b)
    ensures BandBag(a) == BandBag(b)
    decreases |a|
  {
    assert |a| == |multiset(a)| && |b| == |multiset(b)|;
    if a != [] {
      assert a[0] in multiset(b);
      var i :| 0 <= i < |b| && b[i] == a[0];
      WithoutBag(a, 0);
      WithoutBag(b, i);
      BandBagOf(a, 0);
      BandBagOf(b, i);
      SameEntriesSameBands(Without(a, 0), Without(b, i));
    }
  }

  lemma MergedIsAssignable(devices: seq<Entry>, clients: seq<Entry>)
    requires Greedy(SortByBand(clients), SortByBand(devices)).Success?
    ensures Assignable(clients, devices)
  {
    var cs, ds := SortByBand(clients), SortByBand(devices);
    SortIsOrdered(clients);
    SortIsOrdered(devices);
    SameEntriesSameBands(cs, clients);
    SameEntriesSameBands(ds, devices);
    var sortedChoice := GreedyIsSound(cs, ds);
    AssignmentCovers(cs, ds, sortedChoice);
    var chosen := CoversAssigns(clients, devices);
  }

  lemma AssignableIsMerged(devices: seq<Entry>, clients: seq<Entry>)
    requires OneAbove(Bands(clients)) && Assignable(clients, devices)
    ensures |clients| <= |devices| && Greedy(SortByBand(clients), SortByBand(devices)).Success?
  {
    var cs, ds := SortByBand(clients), SortByBand(devices);
    SortIsOrdered(clients);
    SortIsOrdered(devices);
    SameEntriesSameBands(cs, clients);
    SameEntriesSameBands(ds, devices);
    var chosen :| IsAssignment(clients, devices, chosen);
    AssignmentCovers(clients, devices, chosen);
    assert |multiset(chosen)| <= |multiset(devices)| by {
      assert multiset(devices) == multiset(chosen) + (multiset(devices) - multiset(chosen));
    }
    assert forall c :: c in Bands(cs) <==> c in BandBag(cs);
    assert forall c :: c in Bands(clients) <==> c in BandBag(clients);
    GreedyIsComplete(cs, ds);
  }

  /** The merge of an environment whose clients name at most one band after "dual" succeeds if and only if it can. */
  lemma MergeSucceedsIff(devices: seq<Entry>, clients: seq<Entry>)
    requires OneAbove(Bands(clients))
    ensures Merge(devices, clients).Success? <==> Workable(clients, devices) && Assignable(clients, devices)
  {
    if Merge(devices, clients).Success? {
      MergedIsAssignable(devices, clients);
    }
    if Assignable(clients, devices) {
      AssignableIsMerged(devices, clients);
    }
  }

  // ---- exactly which band names the order can handle

  /** Whatever the inventory, environments over these bands are merged whenever they can be. */
  ghost predicate AlwaysMerged(vocabulary: set<Name>) {
    forall devices: seq<Entry>, clients: seq<Entry> ::
      Workable(clients, devices) && (forall c :: c in Bands(clients) ==> c in vocabulary) ==>
        (Merge(devices, clients).Success? <==> Assignable(clients, devices))
  }

  function WithBand(band: Name): (entry: Entry)
    ensures !band.Compound? ==> Band(entry) == band
  {
    match band
    case Named(text) => map[BAND := Text(text)]
    case Numeric(n) => map[BAND := Number(n)]
    case _ => map[]
  }

  lemma PairIsSorted(x: Entry, y: Entry)
    requires AtMost(Band(x), Band(y))
    ensures SortByBand([x, y]) == [x, y]
  {
    assert [x, y][1..] == [y] && [y][1..] == [];
    assert SortByBand([]) == [] && SortByBand([y]) == [y];
  }

  lemma SecondIsStarved(dual: Entry, first: Entry, second: Entry)
    requires Band(dual) == DUAL && Band(first) != Band(second) && Band(first) != DUAL
    ensures Greedy([first, second], [dual, first]).Failure?
  {
    assert [first, second][1..] == [second];
    assert FirstFit([dual, first], first) == 0 && Without([dual, first], 0) == [first];
    assert FitFrom([first], Band(second), 1) == 1;
  }

  /** Two bands after "dual": the first client takes the "dual" device although the second needs it. */
  lemma SecondBandIsStarved(a: Name, b: Name)
    requires Above(a) && Above(b) && a != b && AtMost(a, b)
    ensures !Merge([WithBand(DUAL), WithBand(a)], [WithBand(a), WithBand(b)]).Success?
    ensures Assignable([WithBand(a), WithBand(b)], [WithBand(DUAL), WithBand(a)])
  {
    OrderIsTotal(DUAL, a);
    OrderIsTotal(DUAL, DUAL);
    PairIsSorted(WithBand(a), WithBand(b));
    PairIsSorted(WithBand(DUAL), WithBand(a));
    SecondIsStarved(WithBand(DUAL), WithBand(a), WithBand(b));
    assert IsAssignment([WithBand(a), WithBand(b)], [WithBand(DUAL), WithBand(a)], [WithBand(a), WithBand(DUAL)]);
  }

  ghost predicate OneBandAbove(vocabulary: set<Name>) {
    forall a, b :: a in vocabulary && b in vocabulary && Above(a) && Above(b) ==> a == b
  }

  lemma TwoBandsFail(vocabulary: set<Name>, a: Name, b: Name)
    requires a in vocabulary && b in vocabulary && Above(a) && Above(b) && a != b && AtMost(a, b)
    ensures !AlwaysMerged(vocabulary)
  {
    SecondBandIsStarved(a, b);
    assert forall c :: c in Bands([WithBand(a), WithBand(b)]) ==> c in vocabulary;
  }

  lemma OneBandSucceeds(vocabulary: set<Name>)
    requires OneBandAbove(vocabulary)
    ensures AlwaysMerged(vocabulary)
  {
    forall devices: seq<Entry>, clients: seq<Entry> | Workable(clients, devices) && forall c :: c in Bands(clients) ==> c in vocabulary
      ensures Merge(devices, clients).Success? <==> Assignable(clients, devices)
    {
      MergeSucceedsIff(devices, clients);
    }
  }

  /** The greedy merge is complete for a vocabulary of bands if and only if at most one of them sorts after "dual". */
  lemma CompleteIff(vocabulary: set<Name>)
    ensures AlwaysMerged(vocabulary) <==> OneBandAbove(vocabulary)
  {
    if OneBandAbove(vocabulary) {
      OneBandSucceeds(vocabulary);
    } else {
      var a, b :| a in vocabulary && b in vocabulary && Above(a) && Above(b) && a != b;
      OrderIsTotal(a, b);
      if AtMost(a, b) {
        TwoBandsFail(vocabulary, a, b);
      } else {
        TwoBandsFail(vocabulary, b, a);
      }
    }
  }

  // ---- the order and the names, spelled out

  /** Text compares at its first difference; a beginning comes before what goes on. */
  lemma {:induction false} OrderIsByFirstDifference(a: string, b: string)
    ensures NoLaterThan(a, b) <==> a <= b || exists i :: 0 <= i < |a| && i < |b| && a[..i] == b[..i] && a[i] < b[i]
    decreases |a|
  {
    if a != [] && b != [] {
      var a', b' := a[1..], b[1..];
      OrderIsByFirstDifference(a', b');
      if a[0] < b[0] {
        assert a[..0] == b[..0];
      } else if a[0] == b[0] {
        assert a <= b <==> a' <= b';
        if i :| 0 <= i < |a'| && i < |b'| && a'[..i] == b'[..i] && a'[i] < b'[i] {
          assert a[..i + 1] == [a[0]] + a'[..i] && b[..i + 1] == [b[0]] + b'[..i];
        }
        if i :| 0 <= i < |a| && i < |b| && a[..i] == b[..i] && a[i] < b[i] {
          assert a'[..i - 1] == a[..i][1..] && b'[..i - 1] == b[..i][1..];
        }
      } else if i :| 0 <= i < |a| && i < |b| && a[..i] == b[..i] && a[i] < b[i] {
        assert i > 0 ==> a[..i][0] == b[..i][0];
      }
    }
  }

  /** What an entry's band is: nothing if missing or null, truth values as numbers, text and numbers as they are. */
  lemma BandsAre(entry: Entry)
    ensures "band" !in entry || entry["band"] == Null ==> Band(entry) == NoBand
    ensures forall text :: "band" in entry && entry["band"] == Text(text) ==> Band(entry) == Named(text)
    ensures forall n :: "band" in entry && entry["band"] == Number(n) ==> Band(entry) == Numeric(n)
    ensures "band" in entry && entry["band"] == Bool(true) ==> Band(entry) == Numeric(1.0)
    ensures "band" in entry && entry["band"] == Bool(false) ==> Band(entry) == Numeric(0.0)
  {
  }

  lemma NamesCompare(a: Name, b: Name)
    ensures a.Numeric? && b.Numeric? ==> (AtMost(a, b) <==> a.n <= b.n)
    ensures a.Named? && b.Named? ==>
              (AtMost(a, b) <==> a.text <= b.text || exists i :: 0 <= i < |a.text| && i < |b.text| && a.text[..i] == b.text[..i] && a.text[i] < b.text[i])
  {
    if a.Named? && b.Named? {
      OrderIsByFirstDifference(a.text, b.text);
    }
  }

  lemma DigitsComeFirst(text: string)
    requires text != [] && text[0] < 'd'
    ensures !Above(Named(text))
  {
  }

  /** With the band names in use every request that can be served is served, under either spelling. */
  lemma BandsInUseAlwaysMerge()
    ensures AlwaysMerged({Named("2.4 GHz"), Named("5 GHz"), Named("dual")})
    ensures AlwaysMerged({Named("2.4"), Named("5"), Named("dual")})
  {
    DigitsComeFirst("2.4 GHz");
    DigitsComeFirst("5 GHz");
    DigitsComeFirst("2.4");
    DigitsComeFirst("5");
    OrderIsTotal(DUAL, DUAL);
    OneBandSucceeds({Named("2.4 GHz"), Named("5 GHz"), Named("dual")});
    OneBandSucceeds({Named("2.4"), Named("5"), Named("dual")});
  }

  /** Two bands that Python cannot compare with each other. */
  predicate Clash(a: Name, b: Name) {
    !(a.Named? && b.Named?) && !(a.Numeric? && b.Numeric?)
  }

  /** When the merge is refused before it begins: too few devices, two bands of one list that do not compare, or a band that cannot be looked up. */
  lemma RefusedIff(devices: seq<Entry>, clients: seq<Entry>)
    ensures Merge(devices, clients) == Failure(TooFewDevices) <==> |devices| < |clients|
    ensures Merge(devices, clients) == Failure(TypeError) <==>
              |devices| >= |clients|
              && ((exists i, j :: 0 <= i < j < |clients| && Clash(Band(clients[i]), Band(clients[j])))
                  || (exists i, j :: 0 <= i < j < |devices| && Clash(Band(devices[i]), Band(devices[j])))
                  || (clients != [] && ((exists i :: 0 <= i < |clients| && Band(clients[i]).Compound?)
                                        || (exists i :: 0 <= i < |devices| && Band(devices[i]).Compound?))))
  {
    SortableIff(clients);
    SortableIff(devices);
    GreedyRefusesNoBand(SortByBand(clients), SortByBand(devices));
  }

  lemma SortableIff(entries: seq<Entry>)
    ensures Sortable(entries) <==> forall i, j :: 0 <= i < j < |entries| ==> !Clash(Band(entries[i]), Band(entries[j]))
  {
    if !Sortable(entries) {
      if Band(entries[0]).Named? {
        var j :| 0 <= j < |entries| && !Band(entries[j]).Named?;
        assert Clash(Band(entries[0]), Band(entries[j]));
      } else if Band(entries[0]).Numeric? {
        var j :| 0 <= j < |entries| && !Band(entries[j]).Numeric?;
        assert Clash(Band(entries[0]), Band(entries[j]));
      } else {
        assert Clash(Band(entries[0]), Band(entries[1]));
      }
    }
  }

  lemma {:induction false} GreedyRefusesNoBand(clients: seq<Entry>, devices: seq<Entry>)
    ensures Greedy(clients, devices).Failure? ==> Greedy(clients, devices).error.NoDeviceFor? && Greedy(clients, devices).error.client in clients
    decreases |clients|
  {
    if clients != [] {
      var i := FirstFit(devices, clients[0]);
      if i < |devices| {
        GreedyRefusesNoBand(clients[1..], Without(devices, i));
      }
    }
  }

  // ---- which device each client gets

  /** Client by client the first device not taken yet that fits. */
  ghost predicate TakesFirst(clients: seq<Entry>, devices: seq<Entry>, at: seq<nat>) {
    && |at| <= |clients|
    && (forall i :: 0 <= i < |at| ==> at[i] < |devices| && at[i] !in at[..i])
    && (forall i :: 0 <= i < |at| ==> Band(devices[at[i]]) == Band(clients[i]) || Band(devices[at[i]]) == Named("dual"))
    && (forall i, k :: 0 <= i < |at| && 0 <= k < at[i] && k !in at[..i] ==> Band(devices[k]) != Band(clients[i]) && Band(devices[k]) != Named("dual"))
  }

  /** Positions in a list from which position i has been taken out, as positions in the whole list. */
  function Shifted(at: seq<nat>, i: nat): (shifted: seq<nat>)
    ensures |shifted| == |at| && forall k :: 0 <= k < |at| ==> shifted[k] == if at[k] < i then at[k] else at[k] + 1
  {
    seq(|at|, k requires 0 <= k < |at| => if at[k] < i then at[k] else at[k] + 1)
  }

  lemma ShiftedHas(at: seq<nat>, i: nat, n: nat, k: nat)
    requires n <= |at| && k != i
    ensures k in Shifted(at, i)[..n] <==> (if k < i then k else k - 1) in at[..n]
    ensures i !in Shifted(at, i)[..n]
  {
    var k' := if k < i then k else k - 1;
    if k in Shifted(at, i)[..n] {
      var m :| 0 <= m < n && Shifted(at, i)[m] == k;
      assert at[..n][m] == k';
    }
    if k' in at[..n] {
      var m :| 0 <= m < n && at[m] == k';
      assert Shifted(at, i)[..n][m] == k;
    }
  }

  lemma PositionAfter(devices: seq<Entry>, i: nat, rest: seq<nat>, m: nat)
    requires i < |devices| && m < |rest| && rest[m] < |devices| - 1 && rest[m] !in rest[..m]
    ensures var at := [i] + Shifted(rest, i);
            && at[..m + 1] == [i] + Shifted(rest, i)[..m]
            && at[m + 1] < |devices| && at[m + 1] !in at[..m + 1] && devices[at[m + 1]] == Without(devices, i)[rest[m]]
  {
    var at := [i] + Shifted(rest, i);
    assert at[..m + 1] == [i] + Shifted(rest, i)[..m];
    ShiftedHas(rest, i, m, at[m + 1]);
  }

  lemma PassedOverAfter(devices: seq<Entry>, i: nat, rest: seq<nat>, m: nat, k: nat)
    requires i < |devices| && m < |rest| && rest[m] < |devices| - 1 && k < Shifted(rest, i)[m] && k !in [i] + Shifted(rest, i)[..m]
    ensures var k' := if k < i then k else k - 1;
            k != i && 0 <= k' < rest[m] && k' !in rest[..m] && devices[k] == Without(devices, i)[k']
  {
    assert ([i] + Shifted(rest, i)[..m])[0] == i;
    ShiftedHas(rest, i, m, k);
  }

  lemma TakesFirstAfter(clients: seq<Entry>, devices: seq<Entry>, i: nat, rest: seq<nat>)
    requires clients != [] && i < |devices| && i == FirstFit(devices, clients[0])
    requires TakesFirst(clients[1..], Without(devices, i), rest)
    ensures TakesFirst(clients, devices, [i] + Shifted(rest, i))
  {
    var at, left := [i] + Shifted(rest, i), Without(devices, i);
    forall m | 0 <= m < |at|
      ensures at[m] < |devices| && at[m] !in at[..m]
      ensures Band(devices[at[m]]) == Band(clients[m]) || Band(devices[at[m]]) == Named("dual")
    {
      if m > 0 {
        PositionAfter(devices, i, rest, m - 1);
        assert clients[m] == clients[1..][m - 1];
      }
    }
    forall m, k | 0 <= m < |at| && 0 <= k < at[m] && k !in at[..m]
      ensures Band(devices[k]) != Band(clients[m]) && Band(devices[k]) != Named("dual")
    {
      PassedOver(clients, devices, i, rest, m, k);
    }
  }

  lemma PassedOver(clients: seq<Entry>, devices: seq<Entry>, i: nat, rest: seq<nat>, m: nat, k: nat)
    requires clients != [] && i < |devices| && i == FirstFit(devices, clients[0])
    requires TakesFirst(clients[1..], Without(devices, i), rest)
    requires m <= |rest| && k < ([i] + Shifted(rest, i))[m] && k !in ([i] + Shifted(rest, i))[..m] && k < |devices|
    ensures Band(devices[k]) != Band(clients[m]) && Band(devices[k]) != Named("dual")
  {
    if m == 0 {
      if Fits(Band(devices[k]), Band(clients[0])) {
        FitIsNoLater(devices, Band(clients[0]), 0, k);
      }
    } else {
      PositionAfter(devices, i, rest, m - 1);
      PassedOverAfter(devices, i, rest, m - 1, k);
      assert clients[m] == clients[1..][m - 1];
    }
  }

  /** Every client has a position and is merged into the device there. */
  ghost predicate MergedAt(clients: seq<Entry>, devices: seq<Entry>, at: seq<nat>, merged: seq<Entry>) {
    && |at| == |clients| == |merged|
    && (forall i :: 0 <= i < |clients| ==> at[i] < |devices| && Overrides(merged[i], clients[i], devices[at[i]]))
  }

  /** The client after those with a position has none left that fits. */
  ghost predicate NoneLeft(clients: seq<Entry>, devices: seq<Entry>, at: seq<nat>, error: MergeError) {
    && |at| < |clients| && error == NoDeviceFor(clients[|at|])
    && (forall k :: 0 <= k < |devices| && k !in at ==> Band(devices[k]) != Band(clients[|at|]) && Band(devices[k]) != Named("dual"))
  }

  /**
   * The greedy choice, by positions in the sorted device list: each client takes the first device left
   * that fits.  On success every client has one, and its merged entry has all of the client's fields
   * and the device's where the client has none; on failure the client reported is the first for whom
   * no device was left that fits.
   */
  lemma {:induction false} GreedyTakesFirst(clients: seq<Entry>, devices: seq<Entry>) returns (at: seq<nat>)
    ensures TakesFirst(clients, devices, at)
    ensures var r := Greedy(clients, devices);
            if r.Success? then MergedAt(clients, devices, at, r.value) else NoneLeft(clients, devices, at, r.error)
    decreases |clients|
  {
    if clients == [] {
      at := [];
    } else {
      var i := FirstFit(devices, clients[0]);
      if i == |devices| {
        at := [];
        forall k | 0 <= k < |devices| ensures !Fits(Band(devices[k]), Band(clients[0])) {
          if Fits(Band(devices[k]), Band(clients[0])) {
            FitIsNoLater(devices, Band(clients[0]), 0, k);
          }
        }
      } else {
        var rest := GreedyTakesFirst(clients[1..], Without(devices, i));
        TakesFirstAfter(clients, devices, i, rest);
        at := [i] + Shifted(rest, i);
        var later := Greedy(clients[1..], Without(devices, i));
        if later.Success? {
          MergedAtAfter(clients, devices, i, rest, later.value);
        } else {
          NoneLeftAfter(clients, devices, i, rest, later.error);
        }
      }
    }
  }

  lemma MergedAtAfter(clients: seq<Entry>, devices: seq<Entry>, i: nat, rest: seq<nat>, merged: seq<Entry>)
    requires clients != [] && i < |devices| && MergedAt(clients[1..], Without(devices, i), rest, merged)
    ensures MergedAt(clients, devices, [i] + Shifted(rest, i), [devices[i] + clients[0]] + merged)
  {
    var at, all := [i] + Shifted(rest, i), [devices[i] + clients[0]] + merged;
    forall m | 0 <= m < |clients| ensures at[m] < |devices| && Overrides(all[m], clients[m], devices[at[m]]) {
      if m > 0 {
        assert devices[at[m]] == Without(devices, i)[rest[m - 1]] && clients[m] == clients[1..][m - 1] && all[m] == merged[m - 1];
      }
    }
  }

  lemma NoneLeftAfter(clients: seq<Entry>, devices: seq<Entry>, i: nat, rest: seq<nat>, error: MergeError)
    requires clients != [] && i < |devices| && NoneLeft(clients[1..], Without(devices, i), rest, error)
    ensures NoneLeft(clients, devices, [i] + Shifted(rest, i), error)
  {
    var at := [i] + Shifted(rest, i);
    assert clients[|at|] == clients[1..][|rest|];
    forall k | 0 <= k < |devices| && k !in at ensures Band(devices[k]) != Band(clients[|at|]) && Band(devices[k]) != Named("dual") {
      LeftOver(devices, i, rest, k);
    }
  }

  lemma LeftOver(devices: seq<Entry>, i: nat, rest: seq<nat>, k: nat)
    requires i < |devices| && k < |devices| && k !in [i] + Shifted(rest, i)
    ensures var k' := if k < i then k else k - 1;
            k != i && 0 <= k' < |devices| - 1 && k' !in rest && devices[k] == Without(devices, i)[k']
  {
    assert ([i] + Shifted(rest, i))[0] == i;
    ShiftedHas(rest, i, |rest|, k);
    assert Shifted(rest, i)[..|rest|] == Shifted(rest, i) && rest[..|rest|] == rest;
  }

  /** Every field of the client, and those of the device that the client does not have. */
  predicate Overrides(merged: Entry, client: Entry, device: Entry) {
    && merged.Keys == client.Keys + device.Keys
    && (forall key :: key in client ==> merged[key] == client[key])
    && (forall key :: key in device && key !in client ==> merged[key] == device[key])
  }

  /** The inventory and the request of an ordinary set-up: the "2.4" client gets the "dual" device, and "5" its own. */
  lemma OrdinaryMerge(dual: Entry, five: Entry, clientFive: Entry, clientTwo: Entry)
    requires Band(dual) == Named("dual") && Band(five) == Named("5") && Band(clientFive) == Named("5") && Band(clientTwo) == Named("2.4")
    ensures Merge([dual, five], [clientFive, clientTwo]) == Success([dual + clientTwo, five + clientFive])
  {
    assert AtMost(Named("5"), Named("dual")) && !AtMost(Named("dual"), Named("5"));
    assert AtMost(Named("2.4"), Named("5")) && !AtMost(Named("5"), Named("2.4"));
    PairIsSwapped(dual, five);
    PairIsSwapped(clientFive, clientTwo);
    var clients, devices := [clientTwo, clientFive], [five, dual];
    assert clients[1..] == [clientFive] && clients[1..][1..] == [];
    assert FitFrom(devices, Named("2.4"), 1) == 1 && FirstFit(devices, clientTwo) == 1 && Without(devices, 1) == [five];
    assert FirstFit([five], clientFive) == 0 && Without([five], 0) == [];
    assert [clientFive][1..] == [] && Greedy([], []) == Success([]);
    assert [five + clientFive] + [] == [five + clientFive];
    assert Greedy([clientFive], [five]) == Success([five + clientFive]);
    assert [dual + clientTwo] + [five + clientFive] == [dual + clientTwo, five + clientFive];
  }

  lemma PairIsSwapped(x: Entry, y: Entry)
    requires !AtMost(Band(x), Band(y))
    ensures SortByBand([x, y]) == [y, x]
  {
    assert [x, y][1..] == [y] && [y][1..] == [];
    assert SortByBand([]) == [] && SortByBand([y]) == [y];
    assert Insert(x, [], SortsBefore) == [x];
  }
}
