/**
  Extraction of a BLE advertisement event from the `btle` object of one decoded
  packet: a chain of typed lookups with early exits, one default value, and the
  company code looked up in the company-name table.
 */
module BleParsers {
  import opened Wrappers
  import opened JsonValue
  import opened HexParse
  import opened BleEvent

  const AdvertisingAddressKey := "btle.advertising_address"
  const AdvertisingDataKey := "btcommon.eir_ad.advertising_data"
  const EntryKey := "btcommon.eir_ad.entry"
  const EntryDataKey := "btcommon.eir_ad.entry.data"
  const CompanyIdKey := "btcommon.eir_ad.entry.company_id"

  const AdvertProtocol := "BLE ADVERT"
  const Broadcast := "BROADCAST"
  const NoData := "No data could be retrieved"

  /** The company-name table indexed by 16-bit code; a missing code reads as "". */
  type CompanyTable = map<UInt16, string>

  function CompanyName(table: CompanyTable, code: UInt16): string {
    if code in table then table[code] else ""
  }

  /** The event message, "Proprietary %s Data" formatted with the company name. */
  function ProprietaryMessage(companyName: string): string {
    "Proprietary " + companyName + " Data"
  }

  /** The event pushed for `btle`, if any; `now` is the instant of the push. */
  function OnProprietary(btle: Object, now: Tick, table: CompanyTable): Option<SnifferEvent> {
    var address :- StringAt(btle, AdvertisingAddressKey);
    var advertisingData :- ObjectAt(btle, AdvertisingDataKey);
    var entry :- ObjectAt(advertisingData, EntryKey);
    var data := StringAt(entry, EntryDataKey).GetOr(NoData);
    var companyId :- StringAt(entry, CompanyIdKey);
    var name := CompanyName(table, CompanyCode(companyId));
    Some(SnifferEvent(packetTime := now, protocol := AdvertProtocol, source := address,
                      destination := Broadcast, message := ProprietaryMessage(name), data := data))
  }

  /** Generic advertisements are handled as proprietary ones. */
  function OnAdvertisement(btle: Object, now: Tick, table: CompanyTable): Option<SnifferEvent> {
    OnProprietary(btle, now, table)
  }

  /** The shape of a `btle` object for which an event is emitted, written on the raw JSON. */
  predicate Emits(btle: Object) {
    && AdvertisingAddressKey in btle && btle[AdvertisingAddressKey].JString?
    && AdvertisingDataKey in btle && btle[AdvertisingDataKey].JObject?
    && EntryKey in btle[AdvertisingDataKey].fields
    && btle[AdvertisingDataKey].fields[EntryKey].JObject?
    && CompanyIdKey in btle[AdvertisingDataKey].fields[EntryKey].fields
    && btle[AdvertisingDataKey].fields[EntryKey].fields[CompanyIdKey].JString?
  }

  /** The advertisement entry of a `btle` object of the right shape. */
  function Entry(btle: Object): Object
    requires Emits(btle)
  {
    btle[AdvertisingDataKey].fields[EntryKey].fields
  }

  /** The lookups of OnProprietary succeed on an object of the right shape. */
  lemma LookupsSucceed(btle: Object)
    requires Emits(btle)
    ensures StringAt(btle, AdvertisingAddressKey) == Some(btle[AdvertisingAddressKey].str)
    ensures ObjectAt(btle, AdvertisingDataKey) == Some(btle[AdvertisingDataKey].fields)
    ensures ObjectAt(btle[AdvertisingDataKey].fields, EntryKey) == Some(Entry(btle))
    ensures StringAt(Entry(btle), CompanyIdKey) == Some(Entry(btle)[CompanyIdKey].str)
  {
  }

  /** An event is emitted exactly for objects of the right shape. */
  lemma EmitsIff(btle: Object, now: Tick, table: CompanyTable)
    ensures OnProprietary(btle, now, table).Some? <==> Emits(btle)
  {
  }

  /** No advertising address string, no event. */
  lemma NoAddressNoEvent(btle: Object, now: Tick, table: CompanyTable)
    requires AdvertisingAddressKey !in btle || !btle[AdvertisingAddressKey].JString?
    ensures OnProprietary(btle, now, table) == None
  {
  }

  /** No advertising-data object, or no entry object inside it, no event. */
  lemma NoEntryNoEvent(btle: Object, now: Tick, table: CompanyTable)
    requires AdvertisingDataKey !in btle || !btle[AdvertisingDataKey].JObject?
          || EntryKey !in btle[AdvertisingDataKey].fields
          || !btle[AdvertisingDataKey].fields[EntryKey].JObject?
    ensures OnProprietary(btle, now, table) == None
  {
  }

  /** No company id string, no event, whether or not the entry holds data. */
  lemma NoCompanyIdNoEvent(btle: Object, now: Tick, table: CompanyTable)
    requires AdvertisingDataKey in btle && btle[AdvertisingDataKey].JObject?
    requires EntryKey in btle[AdvertisingDataKey].fields
    requires var entry := btle[AdvertisingDataKey].fields[EntryKey];
             entry.JObject? && (CompanyIdKey !in entry.fields || !entry.fields[CompanyIdKey].JString?)
    ensures OnProprietary(btle, now, table) == None
  {
  }

  /** The emitted event: protocol "BLE ADVERT", from the advertising address to
      "BROADCAST", the entry's data string or the default text when it has none,
      a message naming the company of the parsed company id, stamped `now`. */
  lemma EmittedEvent(btle: Object, now: Tick, table: CompanyTable)
    requires Emits(btle)
    ensures var e := OnProprietary(btle, now, table).value;
            && e.packetTime == now
            && e.protocol == AdvertProtocol
            && e.source == btle[AdvertisingAddressKey].str
            && e.destination == Broadcast
            && e.data == (if EntryDataKey in Entry(btle) && Entry(btle)[EntryDataKey].JString?
                          then Entry(btle)[EntryDataKey].str else NoData)
            && e.message == ProprietaryMessage(CompanyName(table, CompanyCode(Entry(btle)[CompanyIdKey].str)))
  {
    LookupsSucceed(btle);
    var entry := Entry(btle);
    assert StringAt(entry, EntryDataKey).GetOr(NoData)
        == if EntryDataKey in entry && entry[EntryDataKey].JString? then entry[EntryDataKey].str else NoData;
  }

  /** A missing data string does not stop the event: it carries the default text. */
  lemma MissingDataDefaulted(btle: Object, now: Tick, table: CompanyTable)
    requires Emits(btle) && (EntryDataKey !in Entry(btle) || !Entry(btle)[EntryDataKey].JString?)
    ensures OnProprietary(btle, now, table).Some?
    ensures OnProprietary(btle, now, table).value.data == NoData
  {
    EmittedEvent(btle, now, table);
  }

  /** A company id "0x" followed by one to four hex digits names the company of that value. */
  lemma CompanyOfHexId(btle: Object, now: Tick, table: CompanyTable, h: string)
    requires Emits(btle) && Entry(btle)[CompanyIdKey].str == "0x" + h
    requires AllHex(h) && 1 <= |h| <= 4
    ensures HexValue(h) < 0x1_0000
    ensures OnProprietary(btle, now, table).value.message
            == ProprietaryMessage(CompanyName(table, HexValue(h) as UInt16))
  {
    CompanyCodeOfHex(h);
    EmittedEvent(btle, now, table);
  }

  /** Generic advertisements go through the proprietary parser unchanged. */
  lemma AdvertisementIsProprietary(btle: Object, now: Tick, table: CompanyTable)
    ensures OnAdvertisement(btle, now, table) == OnProprietary(btle, now, table)
  {
  }
}
