/**
 * The project file of PingerTool/Classes/ProjectControl.cs (SaveFileData) as a stored
 * record, and what saving writes and opening imports. JSON, the file system and the
 * Windows registry are not modelled: a file is either a record or unreadable.
 * IPAddress.ToString and IPAddress.TryParse are passed in as `format` and `parse`.
 */
module ProjectFiles {
  import opened Wrappers
  import opened Targets

  /** SaveFileData.PingElement: address text and name, each possibly null. */
  datatype PingElement = PingElement(address: Option<string>, name: Option<string>)

  /** SaveFileData: the element list (null entries and a null list allowed, as JSON
      permits), the warning threshold and the ping timeout. */
  datatype SaveFileData = SaveFileData(
    pingElements: Option<seq<Option<PingElement>>>,
    warningThreshold: int,
    pingTimeout: int)

  /** A file on disk: a record, or content that does not deserialize to one. */
  datatype StoredFile = Parsed(data: SaveFileData) | Unreadable

  /** The elements SaveProject writes: one {Address, Name} per target, in collection order. */
  function SaveElements(s: seq<PingControlModel>, format: IPAddress -> string): (r: seq<Option<PingElement>>)
    ensures |r| == |s|
  {
    if |s| == 0 then []
    else SaveElements(s[..|s| - 1], format) + [Some(PingElement(Some(format(s[|s| - 1].address)), Some(s[|s| - 1].displayName)))]
  }

  /** Entry `i` of what is saved is the address text and name of target `i`. */
  lemma {:induction false} SaveElementsAt(s: seq<PingControlModel>, format: IPAddress -> string)
    ensures forall i :: 0 <= i < |s| ==>
      SaveElements(s, format)[i] == Some(PingElement(Some(format(s[i].address)), Some(s[i].displayName)))
  {
    if |s| > 0 {
      var init := s[..|s| - 1];
      SaveElementsAt(init, format);
      forall i | 0 <= i < |init| ensures init[i] == s[i] { }
    }
  }

  /** The record SaveProject writes. Graph visibility is not part of it. */
  function SaveData(s: seq<PingControlModel>, format: IPAddress -> string, warningThreshold: int, pingTimeout: int): SaveFileData
  {
    SaveFileData(Some(SaveElements(s, format)), warningThreshold, pingTimeout)
  }

  /** The registry after OpenProject handles one non-null entry: entries with a null address
      or name, or an address that does not parse, are skipped; the rest go through
      CreatePingElement with the graph shown. */
  function ImportOne(s: seq<PingControlModel>, e: PingElement, parse: string -> Option<IPAddress>): (r: seq<PingControlModel>)
    ensures s <= r && |r| <= |s| + 1
    ensures |r| == |s| + 1 <==>
      e.address.Some? && e.name.Some? && parse(e.address.value).Some? && !HasAddress(s, parse(e.address.value).value)
  {
    if e.address.None? || e.name.None? then s
    else match parse(e.address.value)
      case None => s
      case Some(a) => Apply(s, Create(e.name.value, a, false))
  }

  /** The registry after OpenProject has handled `elems` (null entries stop the import
      before they are reached, see ImportLength). */
  function Imported(s: seq<PingControlModel>, elems: seq<Option<PingElement>>, parse: string -> Option<IPAddress>): (r: seq<PingControlModel>)
    ensures |s| <= |r| <= |s| + |elems|
  {
    if |elems| == 0 then s
    else
      var before := Imported(s, elems[..|elems| - 1], parse);
      match elems[|elems| - 1]
      case None => before
      case Some(e) => ImportOne(before, e, parse)
  }

  /** How many entries OpenProject handles: all of them, or those before the first null
      entry, on which reading the Address field throws. */
  function ImportLength(elems: seq<Option<PingElement>>): (k: nat)
    ensures k <= |elems|
    ensures forall i :: 0 <= i < k ==> elems[i].Some?
    ensures k < |elems| ==> elems[k].None?
  {
    if |elems| == 0 then 0
    else if elems[0].None? then 0
    else 1 + ImportLength(elems[1..])
  }

  /** Importing only appends: the records already present stay first and unchanged (an
      entry whose address is present is rejected, not merged), every added record has its
      graph shown, and addresses stay unique. */
  lemma {:induction false} ImportAppends(s: seq<PingControlModel>, elems: seq<Option<PingElement>>, parse: string -> Option<IPAddress>)
    requires UniqueAddresses(s)
    ensures var r := Imported(s, elems, parse);
      && |s| <= |r| && r[..|s|] == s
      && UniqueAddresses(r)
      && forall i :: |s| <= i < |r| ==> r[i].showGraph && r[i].displayLines == []
  {
    if |elems| > 0 {
      var before := Imported(s, elems[..|elems| - 1], parse);
      ImportAppends(s, elems[..|elems| - 1], parse);
      match elems[|elems| - 1]
      case None =>
      case Some(e) =>
        if e.address.Some? && e.name.Some? && parse(e.address.value).Some? {
          var op := Create(e.name.value, parse(e.address.value).value, false);
          ApplyKeepsUnique(before, op);
          var r := Apply(before, op);
          assert r[..|before|] == before;
          assert r[..|s|] == before[..|s|];
        }
    }
  }

  /** Save then open round trip: opening what was saved from a registry, into an empty
      registry, gives back the same (address, name) sequence, provided each address's text
      parses back to the address. */
  lemma SaveOpenRoundTrip(s: seq<PingControlModel>, format: IPAddress -> string, parse: string -> Option<IPAddress>)
    requires UniqueAddresses(s)
    requires forall i :: 0 <= i < |s| ==> parse(format(s[i].address)) == Some(s[i].address)
    ensures var elems := SaveElements(s, format);
      && ImportLength(elems) == |elems|
      && Entries(Imported([], elems, parse)) == Entries(s)
  {
    SaveElementsAt(s, format);
    ImportLengthAllPresent(SaveElements(s, format));
    SavedEntriesImported(s, format, parse);
  }

  /** Importing every saved entry into an empty registry rebuilds the (address, name) pairs. */
  lemma {:induction false} SavedEntriesImported(s: seq<PingControlModel>, format: IPAddress -> string, parse: string -> Option<IPAddress>)
    requires UniqueAddresses(s)
    requires forall i :: 0 <= i < |s| ==> parse(format(s[i].address)) == Some(s[i].address)
    ensures Entries(Imported([], SaveElements(s, format), parse)) == Entries(s)
  {
    if |s| > 0 {
      SavedEntriesImported(s[..|s| - 1], format, parse);
      SavedLastImported(s, format, parse);
    }
  }

  /** The induction step: once the saved entries of all targets but the last are imported,
      importing the last target's entry adds that target's pair. */
  lemma {:induction false} SavedLastImported(s: seq<PingControlModel>, format: IPAddress -> string, parse: string -> Option<IPAddress>)
    requires |s| > 0 && UniqueAddresses(s)
    requires parse(format(s[|s| - 1].address)) == Some(s[|s| - 1].address)
    requires Entries(Imported([], SaveElements(s[..|s| - 1], format), parse)) == Entries(s[..|s| - 1])
    ensures Entries(Imported([], SaveElements(s, format), parse)) == Entries(s)
  {
    var init := s[..|s| - 1];
    var last := s[|s| - 1];
    var elems := SaveElements(s, format);
    assert elems[..|elems| - 1] == SaveElements(init, format);
    ImportSavedLast(Imported([], SaveElements(init, format), parse), init, last, format, parse);
    assert init + [last] == s;
  }

  /** One step of the round trip: the saved entry of a target whose address no earlier target
      has is imported as a new record with that address and name. */
  lemma {:induction false} ImportSavedLast(before: seq<PingControlModel>, init: seq<PingControlModel>, last: PingControlModel,
                                           format: IPAddress -> string, parse: string -> Option<IPAddress>)
    requires Entries(before) == Entries(init)
    requires forall i :: 0 <= i < |init| ==> init[i].address != last.address
    requires parse(format(last.address)) == Some(last.address)
    ensures Entries(ImportOne(before, PingElement(Some(format(last.address)), Some(last.displayName)), parse))
         == Entries(init + [last])
  {
    assert !HasAddress(before, last.address) by {
      forall i | 0 <= i < |before| ensures before[i].address != last.address {
        assert Entries(before)[i] == Entries(init)[i];
      }
    }
    var r := before + [NewElement(last.displayName, last.address, false)];
    assert (init + [last])[..|init|] == init;
    assert Entries(r) == Entries(init) + [(last.address, last.displayName)];
  }

  /** With no null entry, every entry is handled. */
  lemma {:induction false} ImportLengthAllPresent(elems: seq<Option<PingElement>>)
    requires forall i :: 0 <= i < |elems| ==> elems[i].Some?
    ensures ImportLength(elems) == |elems|
  {
    if |elems| > 0 {
      ImportLengthAllPresent(elems[1..]);
    }
  }
}
