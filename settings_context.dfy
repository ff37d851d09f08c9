/**
 * The settings store: seven preferences, each persisted under its own
 * "settings.<field>" key, each with its own setter, and a reset that writes
 * the seven defaults in declaration order. No setter emits on the bus.
 */
module SettingsContext {

  import opened Wrappers
  import opened Persist
  import opened SettingsTypes

  /** `JSON.stringify` of an enumeration name (none needs an escape). */
  function EncodeName(name: string): string {
    if PlainText(name) then EncodeString(name) else name
  }

  function DecodeWith<T>(text: string, of: string -> Option<T>): Option<T> {
    match DecodeString(text)
    case None => None
    case Some(s) => of(s)
  }

  function DecodeStorageLimit(text: string): Option<StorageLimit> { DecodeWith(text, StorageLimitOf) }
  function DecodeUnits(text: string): Option<UnitSystem> { DecodeWith(text, UnitSystemOf) }
  function DecodeDateFormat(text: string): Option<DateFormat> { DecodeWith(text, DateFormatOf) }
  function DecodeEmailDigest(text: string): Option<EmailDigest> { DecodeWith(text, EmailDigestOf) }

  /** The storage text of every field of a settings record, by key. */
  function StoredText(s: Settings): map<string, string> {
    map[      "settings.dataCollection" := EncodeBool(s.dataCollection),
      "settings.anonymizeData" := EncodeBool(s.anonymizeData),
      "settings.storageLimit" := EncodeName(StorageLimitName(s.storageLimit)),
      "settings.units" := EncodeName(UnitSystemName(s.units)),
      "settings.dateFormat" := EncodeName(DateFormatName(s.dateFormat)),
      "settings.emailDigest" := EncodeName(EmailDigestName(s.emailDigest)),
      "settings.pushNotifications" := EncodeBool(s.pushNotifications)]
  }

  /** Storage `m` holds the text of every field of `s` under the field's key. */
  predicate Holds(m: map<string, string>, s: Settings) {
    && "settings.dataCollection" in m && m["settings.dataCollection"] == EncodeBool(s.dataCollection)
    && "settings.anonymizeData" in m && m["settings.anonymizeData"] == EncodeBool(s.anonymizeData)
    && "settings.storageLimit" in m && m["settings.storageLimit"] == EncodeName(StorageLimitName(s.storageLimit))
    && "settings.units" in m && m["settings.units"] == EncodeName(UnitSystemName(s.units))
    && "settings.dateFormat" in m && m["settings.dateFormat"] == EncodeName(DateFormatName(s.dateFormat))
    && "settings.emailDigest" in m && m["settings.emailDigest"] == EncodeName(EmailDigestName(s.emailDigest))
    && "settings.pushNotifications" in m && m["settings.pushNotifications"] == EncodeBool(s.pushNotifications)
  }

  /** What the seven stores read at start-up: each stored field, or its default. */
  function Loaded(stored: map<string, string>): Settings {
    Settings(
      Load(stored, "settings.dataCollection", DecodeBool, DefaultSettings.dataCollection),
      Load(stored, "settings.anonymizeData", DecodeBool, DefaultSettings.anonymizeData),
      Load(stored, "settings.storageLimit", DecodeStorageLimit, DefaultSettings.storageLimit),
      Load(stored, "settings.units", DecodeUnits, DefaultSettings.units),
      Load(stored, "settings.dateFormat", DecodeDateFormat, DefaultSettings.dateFormat),
      Load(stored, "settings.emailDigest", DecodeEmailDigest, DefaultSettings.emailDigest),
      Load(stored, "settings.pushNotifications", DecodeBool, DefaultSettings.pushNotifications))
  }

  /** The stored text holds each field's text under the field's own key. */
  lemma StoredTextHolds(s: Settings)
    ensures Holds(StoredText(s), s)
  {
  }

  /** Text written over earlier storage replaces every field's key. */
  lemma HoldsAfterWrite(m: map<string, string>, s: Settings)
    ensures Holds(m + StoredText(s), s)
  {
    StoredTextHolds(s);
  }

  /** Storage holding the seven fields' text loads as those fields. */
  lemma LoadedFromHolds(m: map<string, string>, s: Settings)
    requires Holds(m, s)
    ensures Loaded(m) == s
  {
    NamesRoundTrip(s.dateFormat, s.units, s.emailDigest, s.storageLimit);
    NamesArePlain(s);
    BoolRoundTrip(s.dataCollection);
    BoolRoundTrip(s.anonymizeData);
    BoolRoundTrip(s.pushNotifications);
    NameRoundTrip(StorageLimitName(s.storageLimit), StorageLimitOf, s.storageLimit);
    NameRoundTrip(UnitSystemName(s.units), UnitSystemOf, s.units);
    NameRoundTrip(DateFormatName(s.dateFormat), DateFormatOf, s.dateFormat);
    NameRoundTrip(EmailDigestName(s.emailDigest), EmailDigestOf, s.emailDigest);
    FieldLoads(m, "settings.dataCollection", DecodeBool, DefaultSettings.dataCollection, s.dataCollection);
    FieldLoads(m, "settings.anonymizeData", DecodeBool, DefaultSettings.anonymizeData, s.anonymizeData);
    FieldLoads(m, "settings.storageLimit", DecodeStorageLimit, DefaultSettings.storageLimit, s.storageLimit);
    FieldLoads(m, "settings.units", DecodeUnits, DefaultSettings.units, s.units);
    FieldLoads(m, "settings.dateFormat", DecodeDateFormat, DefaultSettings.dateFormat, s.dateFormat);
    FieldLoads(m, "settings.emailDigest", DecodeEmailDigest, DefaultSettings.emailDigest, s.emailDigest);
    FieldLoads(m, "settings.pushNotifications", DecodeBool, DefaultSettings.pushNotifications, s.pushNotifications);
  }

  /** Every stored text decodes to the field it was written from. */
  lemma CodecRoundTrip(s: Settings)
    ensures Loaded(StoredText(s)) == s
  {
    StoredTextHolds(s);
    LoadedFromHolds(StoredText(s), s);
  }

  /** An enumeration name, stored as a JSON string, reads back as the value it names. */
  lemma NameRoundTrip<T>(name: string, of: string -> Option<T>, v: T)
    requires PlainText(name) && of(name) == Some(v)
    ensures EncodeName(name) != "" && DecodeWith(EncodeName(name), of) == Some(v)
  {
    StringRoundTrip(name);
  }

  /** A field whose stored text decodes to `v` loads as `v`. */
  lemma FieldLoads<T>(m: map<string, string>, key: string, decode: string -> Option<T>, initial: T, v: T)
    requires key in m && m[key] != "" && decode(m[key]) == Some(v)
    ensures Load(m, key, decode, initial) == v
  {
  }

  lemma NamesArePlain(s: Settings)
    ensures PlainText(StorageLimitName(s.storageLimit)) && PlainText(UnitSystemName(s.units))
    ensures PlainText(DateFormatName(s.dateFormat)) && PlainText(EmailDigestName(s.emailDigest))
  {
    StorageLimitPlain(s.storageLimit);
    UnitSystemPlain(s.units);
    DateFormatPlain(s.dateFormat);
    EmailDigestPlain(s.emailDigest);
  }

  lemma StorageLimitPlain(v: StorageLimit)
    ensures PlainText(StorageLimitName(v))
  {
  }

  lemma UnitSystemPlain(v: UnitSystem)
    ensures PlainText(UnitSystemName(v))
  {
  }

  lemma DateFormatPlain(v: DateFormat)
    ensures PlainText(DateFormatName(v))
  {
  }

  lemma EmailDigestPlain(v: EmailDigest)
    ensures PlainText(EmailDigestName(v))
  {
  }

  /** Stored text written over any earlier storage is what a restart reads back. */
  lemma RestartRestores(storage: map<string, string>, s: Settings)
    ensures Loaded(storage + StoredText(s)) == s
  {
    HoldsAfterWrite(storage, s);
    LoadedFromHolds(storage + StoredText(s), s);
  }

  /** Writing the seven keys one after another is the union with the stored text. */
  lemma WritesAreUnion(m: map<string, string>, s: Settings)
    ensures m["settings.dataCollection" := EncodeBool(s.dataCollection)]["settings.anonymizeData" := EncodeBool(s.anonymizeData)]["settings.storageLimit" := EncodeName(StorageLimitName(s.storageLimit))]["settings.units" := EncodeName(UnitSystemName(s.units))]["settings.dateFormat" := EncodeName(DateFormatName(s.dateFormat))]["settings.emailDigest" := EncodeName(EmailDigestName(s.emailDigest))]["settings.pushNotifications" := EncodeBool(s.pushNotifications)] == m + StoredText(s)
  {
  }

  class SettingsStore {
    var dataCollection: bool
    var anonymizeData: bool
    var storageLimit: StorageLimit
    var units: UnitSystem
    var dateFormat: DateFormat
    var emailDigest: EmailDigest
    var pushNotifications: bool
    var storage: map<string, string>

    function Snapshot(): Settings
      reads this
    {
      Settings(dataCollection, anonymizeData, storageLimit, units, dateFormat, emailDigest, pushNotifications)
    }

    predicate Valid()
      reads this
    {
      Holds(storage, Snapshot())
    }

    /** Each field starts from its stored value, or from its default. */
    constructor (stored: map<string, string>)
      ensures Valid()
      ensures Snapshot() == Loaded(stored)
      ensures stored == map[] ==> Snapshot() == DefaultSettings
      ensures storage == stored + StoredText(Snapshot())
    {
      var s := Loaded(stored);
      dataCollection := s.dataCollection;
      anonymizeData := s.anonymizeData;
      storageLimit := s.storageLimit;
      units := s.units;
      dateFormat := s.dateFormat;
      emailDigest := s.emailDigest;
      pushNotifications := s.pushNotifications;
      storage := stored + StoredText(s);
      HoldsAfterWrite(stored, s);
    }

    /** `setDataCollection`: only this field and its key change. */
    method SetDataCollection(v: bool)
      requires Valid()
      modifies this
      ensures Valid()
      ensures Snapshot() == old(Snapshot()).(dataCollection := v)
      ensures storage == old(storage)["settings.dataCollection" := EncodeBool(v)]
    {
      dataCollection := v;
      storage := storage["settings.dataCollection" := EncodeBool(v)];
    }

    /** `setAnonymizeData`: only this field and its key change. */
    method SetAnonymizeData(v: bool)
      requires Valid()
      modifies this
      ensures Valid()
      ensures Snapshot() == old(Snapshot()).(anonymizeData := v)
      ensures storage == old(storage)["settings.anonymizeData" := EncodeBool(v)]
    {
      anonymizeData := v;
      storage := storage["settings.anonymizeData" := EncodeBool(v)];
    }

    /** `setStorageLimit`: only this field and its key change. */
    method SetStorageLimit(v: StorageLimit)
      requires Valid()
      modifies this
      ensures Valid()
      ensures Snapshot() == old(Snapshot()).(storageLimit := v)
      ensures storage == old(storage)["settings.storageLimit" := EncodeName(StorageLimitName(v))]
    {
      storageLimit := v;
      storage := storage["settings.storageLimit" := EncodeName(StorageLimitName(v))];
    }

    /** `setUnits`: only this field and its key change. */
    method SetUnits(v: UnitSystem)
      requires Valid()
      modifies this
      ensures Valid()
      ensures Snapshot() == old(Snapshot()).(units := v)
      ensures storage == old(storage)["settings.units" := EncodeName(UnitSystemName(v))]
    {
      units := v;
      storage := storage["settings.units" := EncodeName(UnitSystemName(v))];
    }

    /** `setDateFormat`: only this field and its key change. */
    method SetDateFormat(v: DateFormat)
      requires Valid()
      modifies this
      ensures Valid()
      ensures Snapshot() == old(Snapshot()).(dateFormat := v)
      ensures storage == old(storage)["settings.dateFormat" := EncodeName(DateFormatName(v))]
    {
      dateFormat := v;
      storage := storage["settings.dateFormat" := EncodeName(DateFormatName(v))];
    }

    /** `setEmailDigest`: only this field and its key change. */
    method SetEmailDigest(v: EmailDigest)
      requires Valid()
      modifies this
      ensures Valid()
      ensures Snapshot() == old(Snapshot()).(emailDigest := v)
      ensures storage == old(storage)["settings.emailDigest" := EncodeName(EmailDigestName(v))]
    {
      emailDigest := v;
      storage := storage["settings.emailDigest" := EncodeName(EmailDigestName(v))];
    }

    /** `setPushNotifications`: only this field and its key change. */
    method SetPushNotifications(v: bool)
      requires Valid()
      modifies this
      ensures Valid()
      ensures Snapshot() == old(Snapshot()).(pushNotifications := v)
      ensures storage == old(storage)["settings.pushNotifications" := EncodeBool(v)]
    {
      pushNotifications := v;
      storage := storage["settings.pushNotifications" := EncodeBool(v)];
    }

    /** `resetToDefaults`: the seven setters with the defaults, in declaration order. */
    method ResetToDefaults()
      requires Valid()
      modifies this
      ensures Valid()
      ensures Snapshot() == DefaultSettings
      ensures storage == old(storage) + StoredText(DefaultSettings)
    {
      ghost var m := storage;
      SetDataCollection(DefaultSettings.dataCollection);
      SetAnonymizeData(DefaultSettings.anonymizeData);
      SetStorageLimit(DefaultSettings.storageLimit);
      SetUnits(DefaultSettings.units);
      SetDateFormat(DefaultSettings.dateFormat);
      SetEmailDigest(DefaultSettings.emailDigest);
      SetPushNotifications(DefaultSettings.pushNotifications);
      WritesAreUnion(m, DefaultSettings);
    }
  }

  /** Resetting twice leaves the store as one reset does. */
  method ResetTwice(st: SettingsStore)
    requires st.Valid()
    modifies st
    ensures st.Valid()
    ensures st.Snapshot() == DefaultSettings
    ensures st.storage == old(st.storage) + StoredText(DefaultSettings)
  {
    st.ResetToDefaults();
    st.ResetToDefaults();
  }
}
