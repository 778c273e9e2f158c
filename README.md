# modbus-http bridge core, modelled in Dafny

modbus-http serves Modbus devices over HTTP. For each configured channel it
runs a small pipeline:

- a **Poller** walks the channel's devices and registers and emits read
  commands;
- a **Commander** turns HTTP writes into write commands;
- a **Demultiplexer** merges the two command streams;
- an **Executor** performs each command on the bus and stores successful
  reads in a **metric cache** with lazy TTL expiry.

A **Bridge** owns one such channel processor per channel title. It routes
`channel:device:register` references to the processors, and it lists the
cached metrics and the configured registers.

This project models the sequential logic of that pipeline:

- the cache: `Get`, `Set`, `Flush` and the sorted `List`, with the expiry rule;
- reference resolution over the configuration;
- payload decoding, coil normalisation and the bus client's `Read`, `Write`
  and `WriteRef`;
- the enum codecs and the JSON decoding defaults for registers and devices;
- the command values, the poller's emission rule, the executor's effect on
  the cache, and the processor's start/stop ordering;
- the Bridge's routing, `Regs`, `List` and `Flush`;
- the bounded FIFO queue and the string helpers.

The older generation of packages (`model/`, `src/model/model.go`,
`service/`, `device/`, `queue/`, the controller's hex helper) reuses these
definitions where its code is the same. Separate members cover its integer
pause getters, its payload decoding and its way of reporting bus errors, and
lemmas relate the two generations.

Modules, one per file:

- `Basics`: integer widths, Option/Result and the errors.
- `Text`: Go's `strings` functions as used here.
- `Ordering`: string order and `slices.Sort`.
- `Model`: the configuration, durations and reference resolution.
- `Metrics`: the metric and its key.
- `Enums`: the mode, type and register-mode codecs.
- `Decoding`: the JSON decoders.
- `Cache`, `Modbus`, `Commands`, `Commanders`, `Pollers`, `Executors`,
  `Processors`, `Bridges`: the stages of the pipeline.
- `Queues`, `Util`: the FIFO queue and the string helpers.
- `LegacyPauses`: the older generation's pause getters.

How the model represents the program:

- Durations are integer nanoseconds, and the current time `now` is a
  parameter.
- Go channels are `seq<Command>` fields that receive appends.
- The Modbus client is the `Bus` class, which records every transaction it
  is sent; the device's reply is a parameter.
- Go pointers to configuration entries become values. A register's device
  back-reference is an `Option<DeviceRef>`.

## Model

| member | source | states |
|---|---|---|
| `Basics.ToU8` | src/model/device.go:41-44 | Go's `uint8(v)`: the identity on 0..255, otherwise the value congruent to `v` modulo 256. |
| `Basics.ToU16` | src/model/register.go:50-52 | Go's `uint16(v)`: the identity on 0..65535, otherwise the value congruent to `v` modulo 65536. |
| `Text.TrimSpace` | src/model/config.go:33 | `strings.TrimSpace`: the result neither starts nor ends with white space and is no longer than the input. |
| `Text.TrimSpacePadded` | src/model/config.go:33 | Surrounding white space does not change the trimmed text. |
| `Text.TrimSpaceIdempotent` | src/util/strings.go:11 | Trimming twice is trimming once. |
| `Text.TrimSpaceIsSlice` | src/util/strings.go:11 | The trimmed text is a contiguous slice `s[a..b]` of the input, and everything cut off before `a` and after `b` is white space. With the result's non-space ends this determines the result. |
| `Text.ToLower` | src/model/registerType.go:34 | `strings.ToLower` on ASCII: same length, each character lower-cased. |
| `Text.Normalize` | src/model/registerType.go:34 | The parsers' normal form, `TrimSpace(ToLower(s))`: no longer than the input, neither starting nor ending with white space. |
| `Text.NormalizeNoUpper` | src/model/registerType.go:34 | A normal form contains no upper-case ASCII letter. |
| `Text.NormalizePadded` | src/model/registerType.go:34 | The parsers' normalisation (lower-case, then trim) ignores surrounding white space. |
| `Text.NormalizeUpper` | src/model/registerType.go:34 | The normalisation ignores upper-casing of the input. |
| `Text.NormalizeLowerWord` | src/model/registerType.go:25-30 | A word made only of lower-case letters normalises to itself. |
| `Text.Index` | src/util/convert.go:30 | `strings.Index`: the first position where the pattern occurs, or -1 when it occurs nowhere. |
| `Text.IndexZeroIsPrefix` | src/util/convert.go:30 | `Contains(s, p) && Index(s, p) == 0` holds exactly when `p` is a prefix of `s`. |
| `Text.NotContainsSlice` | src/util/strings.go:10-12 | A text that does not contain a pattern has no slice that contains it. |
| `Text.Split` | src/model/config.go:29 | `strings.Split`: at least one piece when the separator is non-empty. |
| `Text.SplitJoin` | src/model/config.go:29 | Joining the pieces of a split with the separator gives back the input. |
| `Text.SplitPiecesFree` | src/util/strings.go:10 | No piece of a split contains the separator. |
| `Text.SplitCharCount` | src/model/config.go:29-32 | Splitting on a character gives one piece more than the number of its occurrences. |
| `Text.SplitThree` | src/model/config.go:29-32 | `a:b:c` with no ':' inside the three parts splits into exactly `[a, b, c]`. |
| `Text.RemoveAll` | src/util/convert.go:32-33 | `strings.Replace(s, pat, "", -1)`: never longer than the input; what survives is stated by `RemoveAllSplitJoin`. |
| `Text.RemoveAllSplitJoin` | src/util/convert.go:32-33 | Deleting every occurrence is splitting on the pattern and joining the pieces with nothing, so exactly the text between the occurrences that `Split` finds (left to right, non-overlapping) survives. |
| `Text.RemoveAllPrefix` | src/util/convert.go:32-33 | A leading occurrence is deleted, so the result is at least the pattern's length shorter. |
| `Text.RemoveAllAbsent` | src/util/convert.go:32-33 | Deleting an absent pattern changes nothing. |
| `Ordering.LessTotal` | src/bridge/cache.go:56 | Go's string order is total: exactly one of `a < b`, `a == b`, `b < a`. |
| `Ordering.LessTransitive` | src/bridge/cache.go:56 | Go's string order is transitive. |
| `Ordering.LessAsymmetric` | src/bridge/cache.go:56 | Go's string order is asymmetric. |
| `Ordering.LessIrreflexive` | src/bridge/cache.go:56 | Go's string order is irreflexive. |
| `Ordering.InsertSorted` | src/bridge/cache.go:56 | Inserting into a sorted list keeps it sorted. |
| `Ordering.SortStrings` | src/bridge/cache.go:56 | `slices.Sort` on strings: the result is sorted and a permutation of the input. |
| `Ordering.SortedUnique` | src/bridge/cache.go:56 | Two sorted permutations of the same multiset are equal, so the sort result does not depend on the input order. |
| `Ordering.SortedDistinctStrict` | src/bridge/cache.go:52-56 | Sorted keys that each occur once are strictly ascending. |
| `Ordering.SortedKeys` | src/bridge/cache.go:52-56 | A map's keys, collected and sorted: strictly ascending, holding exactly the keys. |
| `Ordering.SortedKeysUnique` | src/bridge/bridge.go:97-101 | Any sorted arrangement of a key set, each key once, is the sorted key list, whatever order the map handed the keys out in. |
| `Ordering.CollectKeys` | src/bridge/cache.go:52-55 | Ranging over a map and appending its keys yields every key exactly once, in some order. |
| `Model.DurationOrDefault` | src/model/common.go:8-18 | An absent setting, or one the duration parser rejects, gives the default; otherwise the parsed duration. |
| `Model.GetTTL` | src/model/config.go:17-19 | An absent or unparsable `ttl` gives 30 s; a parsable one gives its value. |
| `Model.GetCyclePause` | src/model/channel.go:29-31 | An absent or unparsable `cycle_pause` gives 100 ms; a parsable one gives its value. |
| `Model.GetRegisterPause` | src/model/channel.go:33-35 | An absent or unparsable `register_pause` gives 10 ms; a parsable one gives its value. |
| `Model.FirstWithTitle` | src/model/channel.go:37-43 | The first index whose title matches exactly, or -1 when none does; no earlier entry matches. |
| `Model.FindChannelByTitle` | src/model/config.go:20-27 | Succeeds exactly when some channel has the title. It returns the first such channel in declaration order, else `NoChannel`. |
| `Model.FindDeviceByTitle` | src/model/channel.go:37-43 | Succeeds exactly when some device has the title. It returns the first such device, else `NoDevice`. The older `find*ByTitle` helpers in service/reader.go and device/reader.go have the same loop. |
| `Model.FindRegisterByTitle` | src/model/device.go:17-23 | Succeeds exactly when some register has the title. It returns the first such register, else `NoRegister`. |
| `Model.Resolve` | src/model/config.go:33-43 | A found register has the wanted title and lies in a device and channel with the wanted titles. A missing channel gives `NoChannel`. |
| `Model.FindRegister` | src/model/config.go:28-43 | Anything but three ':'-separated segments gives `InvalidReference`. A found register carries the trimmed third segment as its title, in a device and channel titled by the trimmed first two. The errors are those of the lookups. src/model/model.go, service/reader.go and device/reader.go use the same rule. |
| `Model.SegmentCount` | src/model/config.go:29-32 | Three segments exactly when the reference holds two ':'. |
| `Model.FindRegisterSegments` | src/model/config.go:29-43 | For `a:b:c`, `FindRegister` is the lookup of the three trimmed titles. |
| `Model.FindRegisterPadded` | src/model/config.go:33-41 | White space around any segment does not change the result: `" a : b : c "` resolves like `"a:b:c"`. |
| `Model.FindRegisterTitles` | src/model/config.go:33-41 | A found register's title is the trimmed third segment. An unknown first title gives `NoChannel` for it. |
| `Model.WiredRef` | src/main.go:84-87 | A register's back-reference names its channel's title and its device's slave id, title and alias. |
| `Model.WireDevice` | src/main.go:84-87 | Every register of the device gets the wired back-reference; the device's own fields, its Channel included, are unchanged. |
| `Model.WireChannel` | src/main.go:83-89 | Each device of the channel is wired in place, the channel's title unchanged. |
| `Model.WireBackReferences` | src/main.go:81-90 | Each channel of the configuration is wired in place. |
| `Model.WiringIsWired` | src/main.go:81-90 | The configuration the start-up loop builds is `Wired`. |
| `Model.WiredAttached` | src/main.go:81-90 | A wired configuration is attached: every register has a device back-reference. |
| `Model.FoundIsAttached` | src/model/config.go:28-43 | In an attached configuration, a found register has its device back-reference set. |
| `Metrics.IsExpired` | src/model/metric.go:19-21 | `Timestamp.Add(ttl).Before(now)`: expired exactly when the metric's age exceeds the TTL. |
| `Metrics.ExpiryMonotone` | src/model/metric.go:19-21 | Expiry is monotone in time and antitone in the TTL. With a non-negative TTL a metric stamped now is fresh. |
| `Metrics.MetricKey` | src/model/metric.go:25-27 | The key's length is the three titles' lengths plus two separators; its contents are stated by `MetricKeySegments`. |
| `Metrics.MetricKeySegments` | src/model/metric.go:25-27 | Whatever the titles hold, the key is the channel title, ':', the device title, ':', the register title: its length and each of the five slices. |
| `Metrics.MetricKeySplit` | src/model/metric.go:25-27 | When no title holds ':', splitting the key on ':' yields exactly the channel, device and register titles. |
| `Metrics.FirstChannel` | src/model/config.go:20-27 | A channel with no earlier namesake is what its title finds. |
| `Metrics.FirstDevice` | src/model/channel.go:37-43 | A device with no earlier namesake is what its title finds. |
| `Metrics.FirstRegister` | src/model/device.go:17-23 | A register with no earlier namesake is what its title finds. |
| `Metrics.ResolveByMetricKey` | src/model/metric.go:25-27 | In a wired configuration whose titles hold no ':' and whose entries are the first of their titles, a register's own key resolves back to it. |
| `Enums.Lookup` | src/model/registerType.go:33-39 | The shared parser body: found exactly when the normalised input is a table key, then that key's value, otherwise the zero value with `ok` false. |
| `Enums.Name` | src/model/registerType.go:41-43 | The shared `String` body: the value's table name, or "" for a value outside the table. |
| `Enums.LookupName` | src/model/registerType.go:33-39 | A declared value's name parses back to that value, with no error. |
| `Enums.NameLookup` | src/model/registerType.go:33-39 | A successful parse returns the value whose name is the normalised input. A failed parse returns 0. |
| `Enums.LookupInsensitive` | src/model/registerType.go:34 | Parsing ignores case and surrounding white space. |
| `Enums.ParseMode` | src/model/mode.go:30-36 | Succeeds exactly for "rtu", "tcp" and "enc" after normalisation, which give 1, 2 and 3. Anything else gives 0 with an error. |
| `Enums.ModeString` | src/model/mode.go:38-40 | Non-empty exactly for the declared modes 1..3. |
| `Enums.ParseRegType` | src/model/registerType.go:33-39 | Succeeds exactly for "coil", "discrete", "input" and "holding" after normalisation, which give 1..4. Anything else gives 0 with an error. |
| `Enums.RegTypeString` | src/model/registerType.go:41-43 | Non-empty exactly for the declared types 1..4. |
| `Enums.ParseRegMode` | src/model/registerMode.go:30-36 | Succeeds exactly for "ro", "rw" and "wo" after normalisation, which give 1..3. Anything else gives 0 with an error. |
| `Enums.RegModeString` | src/model/registerMode.go:38-40 | Non-empty exactly for the declared register modes 1..3. |
| `Enums.ModeCodec` | src/model/mode.go:17-27 | The two mode tables are inverse, and every name is a lower-case word. |
| `Enums.ModeTablesInverse` | src/model/mode.go:17-27 | Name-to-value and value-to-name are inverse in both directions. |
| `Enums.ModeNamesNormal` | src/model/mode.go:17-22 | Every mode name is a lower-case word. |
| `Enums.RegTypeCodec` | src/model/registerType.go:18-30 | The two type tables are inverse, and every name is a lower-case word. |
| `Enums.RegTypeTablesInverse` | src/model/registerType.go:18-30 | Name-to-value and value-to-name are inverse in both directions. |
| `Enums.RegTypeNamesNormal` | src/model/registerType.go:18-24 | Every type name is a lower-case word. |
| `Enums.RegModeCodec` | src/model/registerMode.go:17-27 | The two register-mode tables are inverse, and every name is a lower-case word. |
| `Enums.RegModeTablesInverse` | src/model/registerMode.go:17-27 | Name-to-value and value-to-name are inverse in both directions. |
| `Enums.RegModeNamesNormal` | src/model/registerMode.go:17-22 | Every register-mode name is a lower-case word. |
| `Enums.ModeRoundTrip` | src/model/mode.go:17-40 | `parseMode(m.String()) == m` for every declared mode. A parsed name prints back as the normalised input. |
| `Enums.RegTypeRoundTrip` | src/model/registerType.go:18-43 | `parseRegType(t.String()) == t` for every declared type. A parsed name prints back as the normalised input. |
| `Enums.RegModeRoundTrip` | src/model/registerMode.go:17-40 | `parseRegMode(m.String()) == m` for every declared register mode. A parsed name prints back as the normalised input. |
| `Enums.RwParses` | src/model/registerMode_test.go:17-27 | "rw" parses to RW. |
| `Enums.CoilParses` | src/model/register_test.go:22-35 | "coil" parses to COIL. |
| `Enums.DiscreteParses` | src/model/register_test.go:36-49 | "discrete" parses to DISCRETE. |
| `Enums.ParsersInsensitive` | src/model/registerType.go:33-35 | All three parsers ignore upper case and surrounding white space; `" HOLDING "` parses to HOLDING. The older parsers in src/model/model.go and model/model.go are the same code. |
| `Enums.MarshalMode` | src/model/mode.go:41-43 | `Mode.MarshalJSON`: the mode's name between double quotes. |
| `Enums.MarshalRegType` | src/model/registerType.go:44-46 | `RegType.MarshalJSON`: the type's name between double quotes. |
| `Enums.MarshalRegMode` | src/model/registerMode.go:41-43 | `RegMode.MarshalJSON`: the register mode's name between double quotes. |
| `Enums.UnmarshalEnum` | src/model/registerType.go:47-55 | `UnmarshalJSON` succeeds exactly when the parser does, with the parsed value. Otherwise it reports the unknown normalised name. |
| `Enums.UnmarshalMode` | src/model/mode.go:44-53 | `Mode.UnmarshalJSON` on the decoded string: a decoded mode is the one whose name is the normalised input; an unknown name is reported. |
| `Enums.UnmarshalRegType` | src/model/registerType.go:47-55 | `RegType.UnmarshalJSON`: a decoded type is the one whose name is the normalised input; an unknown name is reported. |
| `Enums.UnmarshalRegMode` | src/model/registerMode.go:44-53 | `RegMode.UnmarshalJSON`: a decoded register mode is the one whose name is the normalised input; an unknown name is reported. |
| `Enums.JsonModeRoundTrip` | src/model/mode.go:41-52 | Unmarshalling the name of a declared mode gives that mode. |
| `Enums.JsonRegTypeRoundTrip` | src/model/registerType.go:44-55 | Unmarshalling the name of a declared type gives that type. |
| `Enums.JsonRegModeRoundTrip` | src/model/registerMode.go:41-52 | Unmarshalling the name of a declared register mode gives that mode. |
| `Enums.JsonExamples` | src/model/mode_test.go:8-16 | RTU, COIL and RW marshal to `"rtu"`, `"coil"` and `"rw"`, as model/model_test.go also expects. |
| `Enums.JsonReadRtu` | src/model/mode_test.go:17-27 | `"rtu"` unmarshals to RTU. |
| `Decoding.ModeForType` | src/model/register.go:36-41 | The default mode: RW exactly for coil and holding, RO for every other type. |
| `Decoding.DecodedRegister` | src/model/register.go:24-67 | The register decoder's defaults, field by field. A present mode is parsed (0 when unknown, with no fallback). With no mode, the type decides. With neither, the mode is 0. The size is 1 when absent and otherwise truncated to 16 bits. The address is 0 when absent. There is no device back-reference. |
| `Decoding.DecodeRegister` | src/model/register.go:24-67 | The field-by-field decoder computes exactly `DecodedRegister`. |
| `Decoding.RegisterDecodingCases` | src/model/register_test.go:8-49 | `{"mode":"rw"}` gives RW with size 1, `{"type":"coil"}` gives RW, and `{"type":"discrete"}` gives RO (also model/model_test.go:68-109). |
| `Decoding.WriteOnlyOnlyWhenAsked` | src/model/register.go:31-42 | WO arises only from an explicit "wo". The type default is always RO or RW. |
| `Decoding.DecodedDevice` | src/model/device.go:26-57 | An absent alias defaults to the title, and a present one is kept. An absent slave id is 0, a present one is truncated to 8 bits. Each register is decoded in order. The channel back-reference is unset. |
| `Decoding.MapRun` | src/model/device.go:45-53 | Decoding a list element by element: same length, element `i` decoded from input `i`. |
| `Decoding.RegisterDecoder` | src/model/device.go:45-53 | The per-element decoder the device decoder maps over its registers: each object is decoded as `DecodedRegister`. |
| `Decoding.DecodeDevice` | src/model/device.go:26-57 | The device decoder computes exactly `DecodedDevice`. |
| `Decoding.DecodeRegisters` | src/model/device.go:51 | Decoding the register array yields each register decoded in order. |
| `Decoding.DeviceAliasCases` | src/model/device.go:36-40 | With no alias the title is used; a given alias is kept even when it differs from the title. |
| `LegacyPauses.GetCyclePause` | src/model/model.go:227-233 | Older integer getter: CyclePause when positive, otherwise 100, so always positive (model/model.go:198-204 is the same). |
| `LegacyPauses.GetRegisterPause` | src/model/model.go:235-241 | Older integer getter: RegisterPause when positive, otherwise 10, so always positive (model/model.go:206-212 is the same). |
| `LegacyPauses.PausesIdempotent` | src/model/model.go:227-241 | Feeding a getter's result back in as the setting gives the same result. |
| `LegacyPauses.PausesIndependent` | src/model/model.go:227-241 | Each getter depends only on its own setting. |
| `LegacyPauses.PausesKeptIff` | src/model/model.go:227-241 | A setting is returned unchanged exactly when it is positive. |
| `Cache.Visible` | src/bridge/cache.go:33-42 | `Get`'s answer: present exactly when the key is stored and not expired, and then it is the stored metric. |
| `Cache.FreshKeys` | src/bridge/cache.go:58-64 | The listed keys are exactly the given keys whose metric is not expired. |
| `Cache.FreshKeysOrdered` | src/bridge/cache.go:58-64 | Filtering strictly ascending keys keeps them strictly ascending. |
| `Cache.FreshEntries` | src/bridge/cache.go:58-64 | The non-expired metrics are those stored under the fresh keys, in key order. |
| `Cache.Listing` | src/bridge/cache.go:51-66 | What `List` returns: every listed metric is stored in the cache and unexpired. |
| `Cache.ListingSpec` | src/bridge/cache.go:51-66 | `List` returns exactly the stored non-expired metrics, one per key, in strictly ascending key order. |
| `Cache.FlushedIsEmpty` | src/bridge/cache.go:46-50 | After `Flush`, `Get` finds nothing and `List` is empty. |
| `Cache.SetThenGet` | src/bridge/cache.go:43-45 | After `Set(k, m)`, `Get(k)` is `m` while `m` is fresh and absent once it is expired. Every other key answers as before. |
| `Cache.MetricCache.Key` | src/bridge/cache.go:30-32 | The given channel's title, then ':', the register's device title, ':', and the register title: each segment's contents and the separators' positions are stated. |
| `Cache.MetricCache.KeySplit` | src/bridge/cache.go:30-32 | When no title holds ':', splitting the cache key on ':' yields exactly the channel, device and register titles. |
| `Cache.MetricCache.constructor` | src/bridge/cache.go:18-23 | A new cache is empty and keeps the TTL. |
| `Cache.MetricCache.Get` | src/bridge/cache.go:33-42 | Returns `Visible` and changes nothing, so expired entries stay stored. |
| `Cache.MetricCache.Set` | src/bridge/cache.go:43-45 | Overwrites the one key and leaves the rest of the map unchanged. |
| `Cache.MetricCache.Flush` | src/bridge/cache.go:46-50 | The delete loop leaves the map empty, whatever the TTL. |
| `Cache.MetricCache.Fresh` | src/bridge/cache.go:57-65 | The filtering loop returns the non-expired metrics of the given keys, in their order. |
| `Cache.MetricCache.List` | src/bridge/cache.go:51-66 | The key-collecting, sorting and filtering loops return `Listing`, which `ListingSpec` characterises. |
| `Modbus.Bus.constructor` | src/bridge/modbus.go:29-35 | A new bus has recorded no transaction. |
| `Modbus.Bus.Send` | src/bridge/modbus.go:57 | A transaction is recorded and the device's reply is handed back. |
| `Modbus.ReaderFunction` | src/bridge/modbus.go:126-137 | coil → ReadCoils, discrete → ReadDiscreteInputs, input → ReadInputRegisters, anything else → ReadHoldingRegisters; both directions of each case. |
| `Modbus.WriterFunction` | src/bridge/modbus.go:138-147 | coil → WriteSingleCoil, holding → WriteSingleRegister, and no writer for any other type (the panic). |
| `Modbus.CoilNormalized` | src/bridge/modbus.go:102-104 | For a coil, any non-zero value becomes 0xFF00 and 0 stays 0. Other types pass the value unchanged. |
| `Modbus.CoilNormalizedIdempotent` | src/bridge/modbus.go:102-104 | Normalising twice is normalising once. |
| `Modbus.WriteRequest` | src/bridge/modbus.go:100-105 | A transaction exists exactly for coil and holding. It carries the chosen writer, the device's slave id, the address and the normalised value. |
| `Modbus.ReadRequest` | src/bridge/modbus.go:53-57 | The register's reader function, slave id, address and size. |
| `Modbus.Word` | src/bridge/modbus.go:67 | `binary.BigEndian.Uint16`: a value in 0..65535. |
| `Modbus.DecodePayload` | src/bridge/modbus.go:61-73 | 0 bytes give "no value"; 1 byte is zero-extended; 2 bytes are big-endian; 4 bytes give `hi<<8 + lo` of the two words, at most 16842495; any other length gives "too large chunk". Success exactly for lengths 1, 2 and 4. |
| `Modbus.BigEndianTwo` | src/bridge/modbus.go:66-67 | Two bytes decode as `b0*256 + b1`. |
| `Modbus.BigEndianFour` | src/bridge/modbus.go:68-70 | The canonical 4-byte big-endian value is `hi*65536 + lo`. |
| `Modbus.FourByteDecode` | src/bridge/modbus.go:68-70 | The 4-byte decoding agrees with the canonical big-endian value exactly when the first two bytes are zero. |
| `Modbus.FourByteCollision` | src/bridge/modbus.go:68-70 | Two different 4-byte payloads (`00 01 00 00`, `00 00 01 00`) decode to the same 256. |
| `Modbus.LegacyDecode` | service/reader.go:42-51 | Older decoding: empty gives "no value"; one byte is zero-extended; two or more bytes give `b0*256 + b1`, always below 65536. device/reader.go:77-86 is the same. |
| `Modbus.LegacyIgnoresTail` | service/reader.go:47-50 | Bytes after the first two never change the older decoding. |
| `Modbus.LegacyAgreement` | service/reader.go:42-51 | The two decodings agree exactly on payloads of at most 2 bytes and on `00 00 00 00`. |
| `Modbus.BusError` | src/bridge/modbus.go:58-60 | The bridge generation reports a bus error as one opaque error carrying no error code; service/modbus.go:52-54 returns the error unchanged, code included. |
| `Modbus.ReadOutcome` | src/bridge/modbus.go:52-87 | `Read`'s result. A bus fault gives its error with raw 0. An empty payload gives "no value" with raw 0. A bad length gives "too large chunk". A decoded payload gives its raw value and the scaled value, with an error exactly when scaling yields no number. |
| `Modbus.GenerationsAgreeOnPayloads` | service/modbus.go:50-82 | On every payload the two generations' `Read` give the same result; they differ only on bus faults. |
| `Modbus.ModbusClient.constructor` | src/bridge/modbus.go:29-35 | The client keeps its generation, configuration and bus. |
| `Modbus.ModbusClient.Read` | src/bridge/modbus.go:52-87 | Sends exactly the read request and returns `ReadOutcome`. |
| `Modbus.ModbusClient.ReadRef` | src/bridge/modbus.go:88-95 | An unresolved reference returns its error and sends nothing. Otherwise it reads the register and returns its title. |
| `Modbus.ModbusClient.Write` | src/bridge/modbus.go:100-110 | A register that is neither coil nor holding (the panic) sends nothing. Otherwise it sends exactly the normalised write and passes the bus error through. |
| `Modbus.ModbusClient.WriteRef` | src/bridge/modbus.go:111-120 | An unresolved reference or an RO register gives an error and no bus transaction. Otherwise it behaves as `Write`. service/modbus.go:107-123 is the same. |
| `Modbus.ReadFloatRegister` | service/reader.go:37-66 | Sends exactly the read request. Returns the fault, "no value" for an empty payload, or the scaled older decoding with an error exactly when scaling yields no number (device/reader.go:70-102 is the same). |
| `Commands.Command.GetType` | src/bridge/command.go:36-38 | CTRead exactly for read commands, CTWrite exactly for write commands. |
| `Commands.Command.GetValue` | src/bridge/command.go:48-50 | 0 for a read command; the stored value for a write command. |
| `Commands.NewReadCommand` | src/bridge/command.go:28-35 | A read command of type CTRead with value 0, carrying exactly the given channel, device and register. |
| `Commands.NewWriteCommand` | src/bridge/command.go:62-70 | A write command of type CTWrite returning the given value, carrying exactly the given channel, device and register. |
| `Commands.CommandsDistinct` | src/bridge/command.go:7-10 | The two command types differ, and every command is what its constructor builds from its own getters. |
| `Commanders.Commander.constructor` | src/bridge/commander.go:20-28 | A commander over its channel and configuration, with nothing enqueued. |
| `Commanders.Commander.WriteRef` | src/bridge/commander.go:30-39 | An unresolved reference returns its error and enqueues nothing. Otherwise it returns no error and appends exactly one write command: the commander's own channel, the register's device, the register and the unchanged value. The mode is not checked. |
| `Pollers.DeviceSlots` | src/bridge/poller.go:84-90 | The registers the inner loop visits: one slot per register of the device, in order. |
| `Pollers.EmittedAppend` | src/bridge/poller.go:82-91 | Emission distributes over concatenation of the visited slots. |
| `Pollers.SlotsPrefix` | src/bridge/poller.go:82-91 | The slots of the first `i` devices are a prefix of all slots. |
| `Pollers.EmittedPrefix` | src/bridge/poller.go:77-91 | Stopping after any number of visits emits a prefix of the full cycle's commands. |
| `Pollers.EmittedExactly` | src/bridge/poller.go:82-91 | A command is emitted exactly when it is the read command for a visited register whose mode is RO or RW. It carries the poller's channel and the enclosing device. |
| `Pollers.EmittedArePolledReads` | src/bridge/poller.go:86-87 | Every emitted command is a read on the poller's channel for an RO or RW register; WO and mode-0 registers never appear. |
| `Pollers.Budget` | src/bridge/poller.go:77-85 | How many registers a cycle visits: none when already stopped, all otherwise. The `interrupt` argument is an over-approximation that no run uses. |
| `Pollers.DeviceBudget` | src/bridge/poller.go:83-90 | How many registers of one device are visited before the stop flag is seen. |
| `Pollers.Poller.constructor` | src/bridge/poller.go:25-33 | A new poller is neither started nor stopped and has emitted nothing. |
| `Pollers.Poller.Start` | src/bridge/poller.go:34-62 | After `Start` the poller is started; `stopped` and the emitted stream are untouched, so `stopped` is never cleared. |
| `Pollers.Poller.Stop` | src/bridge/poller.go:63-72 | A no-op while not started. Otherwise it raises `stopped` and clears `started`. |
| `Pollers.Poller.PollDevice` | src/bridge/poller.go:84-90 | The inner loop emits the polled registers among the first `DeviceBudget` visits of one device, and raises `stopped` exactly when it was cut short. |
| `Pollers.Poller.Cycle` | src/bridge/poller.go:74-96 | A cycle appends exactly the read commands of the first `Budget` slots: devices in declaration order, registers in order within each device. When already stopped it emits nothing. |
| `Pollers.Poller.PollNext` | src/bridge/poller.go:76-91 | One step of the outer loop: the stream grows by the next device's emitted reads, and `stopped` is raised exactly when the device was cut short. |
| `Pollers.CycleStep` | src/bridge/poller.go:76-91 | The commands of a prefix of the slots grow by the next device's commands. |
| `Pollers.StepPrefix` | src/bridge/poller.go:76-91 | The slots visited so far plus part of the next device are a prefix of all slots. |
| `Pollers.InterruptedIsPrefix` | src/bridge/poller.go:77-85 | Even under the over-approximating `interrupt`, a cycle emits a prefix of the full cycle's commands. |
| `Pollers.RestartedPollerIsSilent` | src/bridge/poller.go:40-54 | Start, Stop, Start, then a cycle: nothing is emitted, because `stopped` stays set. |
| `Pollers.FirstCycle` | src/bridge/poller.go:74-96 | A fresh poller's first cycle emits the full command sequence of its channel. |
| `Executors.Executor.constructor` | src/bridge/executor.go:27-34 | The executor keeps its client and cache and is not started. |
| `Executors.Executor.Start` | src/bridge/executor.go:36-44 | After `Start` the executor is started; a no-op while started. |
| `Executors.Executor.Stop` | src/bridge/executor.go:65-74 | After `Stop` the executor is not started; a no-op while not started. |
| `Executors.Executor.HandleCommand` | src/bridge/executor.go:76-83 | A read performs exactly one bus read. On success it stores one metric under `Key(command channel, register)`; on failure it leaves the cache unchanged. A write never touches the cache and performs exactly one write, or crashes on an unwritable type. Write errors are not propagated. |
| `Executors.Executor.ReadRegister` | src/bridge/executor.go:85-101 | One bus read. A failure leaves the cache unchanged. A success sets exactly one entry, holding raw, the scaled value and `now`. |
| `Executors.Executor.WriteRegister` | src/bridge/executor.go:103-108 | Exactly one write transaction, none only for the panicking types; the cache is not in its frame. |
| `Executors.Stored` | src/bridge/executor.go:92-100 | The metric a successful read stores: keyed by `MetricKey`, channel, device and alias taken from the register's back-references, register title, raw and scaled values as read, stamped `now`, and not expired at `now` for any non-negative TTL. |
| `Executors.StoredKeys` | src/bridge/executor.go:92-96 | The stored metric's key is `MetricKey(register)`. It equals the cache key exactly when the command's channel is the register's own channel. |
| `Processors.Demultiplexer.constructor` | src/bridge/demultiplexer.go:23-31 | A new demultiplexer is not started. |
| `Processors.Demultiplexer.Start` | src/bridge/demultiplexer.go:32-67 | After `Start` it is started; a no-op while started. |
| `Processors.Demultiplexer.Stop` | src/bridge/demultiplexer.go:68-77 | After `Stop` it is not started; a no-op while not started. |
| `Processors.AlternatingCounts` | src/bridge/processor.go:76-99 | In any alternating trace the length is 3 mod 6 exactly while started, and the first three calls are the start calls. |
| `Processors.ChannelProcessor.constructor` | src/bridge/processor.go:31-49 | Fresh components over the channel: a poller, a commander over the channel and configuration, an empty cache with the TTL, and a bridge-generation client with an empty bus. |
| `Processors.ChannelProcessor.Start` | src/bridge/processor.go:76-87 | A no-op while started. Otherwise it starts the demultiplexer, then the executor, then the poller. |
| `Processors.ChannelProcessor.Stop` | src/bridge/processor.go:88-99 | A no-op while stopped. Otherwise it stops the poller, then the executor, then the demultiplexer, leaving the poller stopped. |
| `Processors.StartStopIdempotent` | src/bridge/processor.go:76-99 | Start, Start, Stop, Stop makes exactly one round of start calls and one of stop calls and ends stopped. |
| `Bridges.Route` | src/bridge/bridge.go:114-115 | The untrimmed text before the first ':' (the whole reference when it has none). |
| `Bridges.RouteUntrimmed` | src/bridge/bridge.go:114-115 | Routing keeps white space: `" a:…"` routes to `" a"`, not to `"a"`. |
| `Bridges.LastWithTitle` | src/bridge/bridge.go:43-46 | The last channel with the title, since a later one overwrites the map entry; -1 when there is none. |
| `Bridges.DeviceRegisters` | src/bridge/bridge.go:91-94 | The registers of the devices in order; a register is in it exactly when some device holds it. |
| `Bridges.ChannelRegisters` | src/bridge/bridge.go:90-95 | The registers of all channels in order; membership as the nested loops visit them. |
| `Bridges.WiredRegistersLinked` | src/bridge/bridge.go:93 | In a configuration as src/main.go wires it, every register knows its device and its channel, so it has a key. |
| `Bridges.LastWithKey` | src/bridge/bridge.go:89-96 | The last register with the key, which wins the map entry; -1 when none. |
| `Bridges.IndexRegistersSpec` | src/bridge/bridge.go:89-96 | The keyed map holds exactly the earlier keys and the registers' keys, each mapped to the last register with that key. |
| `Bridges.IndexRegistersAppend` | src/bridge/bridge.go:90-95 | Filing the registers of `a + b` is filing those of `a`, then those of `b`. |
| `Ordering.ValuesAt` | src/bridge/bridge.go:103-106 | Looking up the keys in order gives the map's values in that order; `List` (src/bridge/cache.go:58-59) looks its metrics up the same way. |
| `Ordering.ValuesAtStep` | src/bridge/cache.go:58-59 | Looking up one more key appends that key's value. |
| `Bridges.RegsSpec` | src/bridge/bridge.go:88-108 | `Regs` is sorted strictly by key, with one register per distinct key, namely the last one declared with it; every configured key appears. |
| `Bridges.SortedIndexOrdered` | src/bridge/bridge.go:97-106 | The sorted values are strictly ordered by key and each is the last of its key. |
| `Bridges.SortedIndexCovers` | src/bridge/bridge.go:97-106 | Every register's key appears among the sorted values. |
| `Bridges.KeyCovered` | src/bridge/bridge.go:97-106 | One register's key appears among the sorted values. |
| `Bridges.IndexedUnderOwnKey` | src/bridge/bridge.go:89-96 | Each map entry is the last register with that key, filed under its own key. |
| `Bridges.Bridge.constructor` | src/bridge/bridge.go:28-33 | A new bridge is not started and has no processors. |
| `Bridges.Bridge.GetProcessor` | src/bridge/bridge.go:114-121 | The processor filed under the route, or a routing error naming the reference when none is. |
| `Bridges.Bridge.Start` | src/bridge/bridge.go:35-51 | A no-op while started. Otherwise it builds one fresh processor per channel title, over the last channel with that title and with the configured TTL, and starts each one with an empty cache. |
| `Bridges.Bridge.Stop` | src/bridge/bridge.go:52-62 | A running bridge stops every processor once, adding exactly the stop calls. A stopped one leaves every trace and poller as it was. Either way the map is kept and no cache or commander changes, so `Get` still answers from the caches. |
| `Bridges.Bridge.Get` | src/bridge/bridge.go:64-70 | The routing error, or else the routed cache's answer with no error; that answer may be absent. |
| `Bridges.Bridge.Set` | src/bridge/bridge.go:71-77 | The routing error, or else whatever the routed commander's `WriteRef` returns. No other commander changes, and read-only registers are not refused. |
| `Bridges.Bridge.List` | src/bridge/bridge.go:78-87 | The concatenation, in map order, of each processor's sorted listing; each processor is listed once, and a metric is listed exactly when some processor's listing holds it. |
| `Bridges.ListTitles` | src/bridge/bridge.go:80-85 | The loop of `List`: the listings of the given titles, concatenated in that order. |
| `Bridges.ConcatMember` | src/bridge/bridge.go:80-85 | A metric is listed exactly when it is in some processor's block. |
| `Bridges.ListedStep` | src/bridge/bridge.go:80-85 | Listing one more title appends that title's listing. |
| `Bridges.ConcatStep` | src/bridge/bridge.go:80-85 | Listing one more processor appends its block to the result. |
| `Bridges.BlocksMember` | src/bridge/bridge.go:80-85 | Concatenating one block per title, in whatever order the titles come, lists a metric exactly when some title's block holds it. |
| `Bridges.Listings` | src/bridge/bridge.go:81 | Each processor's listing at `now`, by title. |
| `Bridges.Bridge.Flush` | src/bridge/bridge.go:109-113 | Every processor's cache is empty afterwards. |
| `Bridges.Bridge.Regs` | src/bridge/bridge.go:88-108 | Returns `RegsOf(config)`, which `RegsSpec` proves sorted by key with one register per key. |
| `Bridges.AddChannels` | src/bridge/bridge.go:90-96 | The outer loop files every channel's registers into the key map. |
| `Bridges.AddDevices` | src/bridge/bridge.go:91-95 | The middle loop files every device's registers. |
| `Bridges.AddRegisters` | src/bridge/bridge.go:92-94 | The inner loop files each register under its key, a later one overwriting an earlier. |
| `Bridges.LookUp` | src/bridge/bridge.go:103-106 | The loop that appends `registers[k]` for each key returns the values in key order. |
| `Bridges.BuiltStep` | src/bridge/bridge.go:44-46 | Filing the next channel's processor under its title extends what `Start` has built. |
| `Bridges.AdoptedOwned` | src/bridge/bridge.go:44-46 | A fresh processor's parts can be owned without disturbing the others. |
| `Bridges.CreateProcessors` | src/bridge/bridge.go:43-46 | The creation loop builds one fresh, idle processor per channel title, over its last channel. |
| `Bridges.NewIdle` | src/bridge/bridge.go:45 | A processor created for a channel: fresh parts and not started, with an empty cache of the TTL, over that channel. |
| `Bridges.CreateOne` | src/bridge/bridge.go:45 | One iteration: the map becomes the old map with the new idle processor filed under the channel's title, overwriting an earlier namesake. |
| `Bridges.Launch` | src/bridge/bridge.go:43-49 | Creation followed by starting: every processor is fresh, started and has an empty cache. |
| `Bridges.StartAll` | src/bridge/bridge.go:47-49 | Every idle processor is started once, producing exactly the start calls. |
| `Bridges.StopAll` | src/bridge/bridge.go:59-61 | Every started processor is stopped once, adding exactly the stop calls and leaving its poller stopped; no cache or commander changes. |
| `Bridges.StartOne` | src/bridge/bridge.go:48 | Starting one processor leaves the others as they were. |
| `Bridges.StopOne` | src/bridge/bridge.go:60 | Stopping one processor leaves the others, and every cache and commander, as they were. |
| `Queues.Queue.constructor` | src/queue/queue.go:69-73 | A new queue is empty. |
| `Queues.Queue.Insert` | src/queue/queue.go:40-48 | Below MaxCapacity (2,000,000) it appends at the back and returns nil. At MaxCapacity it errors and leaves the queue unchanged. queue/queue.go:146-154 is the same. |
| `Queues.Queue.Remove` | src/queue/queue.go:50-59 | A non-empty queue returns and drops its front item. An empty one returns nil with an error and stays unchanged. queue/queue.go:156-165 is the same. |
| `Queues.Queue.Size` | src/queue/queue.go:61-63 | The number of stored items, never above MaxCapacity. |
| `Queues.FullQueueRefuses` | src/queue/queue.go:43-47 | Inserting into a full queue errors, and the size stays at capacity. |
| `Queues.InsertRemoveScenario` | src/queue/queue_test.go:8-33 | Insert then Remove returns the same item and the size goes back to 0. |
| `Queues.InsertInsertScenario` | src/queue/queue_test.go:35-49 | Two inserts keep both items in order. |
| `Queues.FourInThreeOutScenario` | src/queue/queue_test.go:51-73 | Four inserts and three removes return the first three in order and leave size 1. |
| `Queues.EmptyRemoveScenario` | src/queue/queue_test.go:97-98 | Removing from an empty queue returns nil with an error, and the size stays 0. |
| `Util.HexaNumberToInteger` | src/util/convert.go:28-37 | Accepted exactly when the input starts with "0x" or "0X"; otherwise an error. On success the result is at least 2 characters shorter and is the input split on "0x" and rejoined, then split on "0X" and rejoined, which is deleting every "0x" and then every "0X". src/controller/cached.go:137-147 is the same code. |
| `Util.UpperPrefixSurvives` | src/util/convert.go:32-33 | Deleting every "0x" keeps a leading "0X" in place for the second pass. |
| `Util.HexaInterior` | src/util/convert.go:32-33 | Interior prefixes go too: "0x10x2" becomes "12". |
| `Util.HexaLowerPrefix` | src/controller/cached.go:141-143 | "0x1F" becomes "1F" and "0xFF" becomes "FF". |
| `Util.HexaUpperPrefix` | src/util/convert.go:32-34 | "0X1f" becomes "1f". |
| `Util.StringSlice` | src/util/strings.go:8-17 | The loop returns the trimmed non-blank pieces of the split, in order. |
| `Util.KeptPieces` | src/util/strings.go:10-15 | Every element is non-empty, already trimmed, and the trimmed copy of some piece. |
| `Util.StringSliceElements` | src/util/strings.go:8-17 | No element is blank or untrimmed, and none contains the separator. |
| `Util.StringSliceEmpty` | src/util/strings.go:8-17 | `StringSlice("", sep)` is empty. |
| `Util.StringOrDefault` | src/util/strings.go:19-25 | The default exactly when the input is empty, otherwise the input. |
| `Util.FormattedStringOrEmpty` | src/util/strings.go:27-32 | "" for empty input, otherwise the formatter's output. |

## Left out

- Goroutines, `select`, quit channels and mutexes (src/bridge/poller.go:43-62,
  src/bridge/executor.go:45-63, src/bridge/demultiplexer.go): these are
  concurrency. Channels are sequences, the demultiplexer is reduced to its
  started flag, and one-transaction-in-flight is not modelled.
- Bridges.Bridge.Set: after `Stop`, Go's `WriteRef` blocks forever on the
  unbuffered command channel (src/bridge/commander.go:37), because the
  demultiplexer that would receive it has returned on its quit channel
  (src/bridge/demultiplexer.go:60-76). The model appends the command to the
  commander's stream and returns no error; the hang is not modelled.
- Metrics.MetricKey: its own contract states only the key's length. The five
  slices are stated by the lemma `MetricKeySegments`, because as ensures of
  the function they are instantiated at every metric key in the proofs about
  the register index and push those proofs out of resources.
- Modbus.BusError: `fmt.Errorf("", err)` (src/bridge/modbus.go:59) does not
  wrap the cause, so `errors.Unwrap` gives nil and the bus's error code is
  lost, but the cause's text survives in the message as a `%!(EXTRA ...)`
  suffix. `OpaqueBusFailure` drops that text as well: the model keeps no
  error messages.
- `time.Sleep` and `time.Now`: clocks. `now` is a parameter and pauses are
  only computed.
- Factor scaling through `goval` and float32/float64 values: the evaluator is a
  foreign library. `scale` is a parameter that returns the scaled value or
  none (none means "incompatible type"). The `factor` defaults
  (src/model/register.go:56-65) are not modelled.
- The Modbus link layer and the handler factories (src/bridge/processor.go:50-74,
  main.go): foreign I/O. The `Bus` class records transactions and takes the
  reply as a parameter.
- The HTTP layers (controllers, server.go, main.go, src/main.go): I/O. The
  back-reference loop of src/main.go:81-90 is modelled by
  `Model.WireBackReferences`; the configuration it builds satisfies `Wired`.
  The older loop of main.go:61-68, whose devices have no Channel, is not
  modelled; what it builds satisfies `Attached`, which is all the bus
  clients and the commander require.
- service/poller.go and service/scheduler.go: bus I/O interleaved with timers
  and unbounded goroutines.
- service/tools.go and `ToFloat64`: random strings and dynamic-type float
  conversion.
- `QueueChan` (queue/queue.go:34-127): it depends on channel blocking and
  float thresholds. Only the slice-based `Queue` is modelled.
- Logging, environment and signals (the src/util logging, env and signal
  files): I/O. The `Trace` calls are omitted.
- Duration parsing (`str2duration`) is the parameter `parse`; the Go JSON
  library's own behaviour is not modelled. The decoders take records of
  optional fields, with `atoi` standing for `strconv.Atoi` of a present field.
- Go's loop-variable pointers (`&chn`, `&r`, `&v`) as shared cells: the model
  uses values, so a processor's channel is the channel value it was built
  over. This is the semantics of Go 1.22 and later, where each iteration
  has its own variable. Under earlier Go every processor built by
  `Start` (src/bridge/bridge.go:44-45) would share the last channel, and
  `Regs` (src/bridge/bridge.go:90-93) would file a pointer to one variable
  under every key, so every entry would read as the last register visited.
  The model does not capture that older behaviour.
- Map iteration order is a nondeterministic choice. `Bridges.Bridge.List`
  reports the order it used as a ghost output, rather than assuming one.
- Pollers.Poller.Cycle: the program itself always behaves as
  `interrupt == None`. The `stopped` flag is written only at
  src/bridge/poller.go:54, by the goroutine that also runs `cycle()`, and
  `Stop`'s send on the unbuffered quit channel is received only between
  cycles. So a stop never lands mid-cycle. `Some(n)` with `0 < n`
  over-approximates: no run reaches it. The checks at src/bridge/poller.go:77 and :83 matter
  only for a restarted poller, which then emits nothing
  (`RestartedPollerIsSilent`).
- Text.ToLower: ASCII letters only; Go's Unicode case mapping is not
  modelled.
- Modbus.ModbusClient.Read, Modbus.ModbusClient.Write and
  Modbus.ReadFloatRegister: require the register's device back-reference. The
  source dereferences `register.Device` there, which panics on nil.
- Modbus.ModbusClient.ReadRef, Modbus.ModbusClient.WriteRef,
  Commanders.Commander.WriteRef and Bridges.Bridge.Set: require an
  `Attached` configuration, which both start-up loops build. The found
  register's device is dereferenced: for the slave id in the client, and in
  the trace message at src/bridge/commander.go:36. A configuration with a
  register that has no device back-reference, which would make the source
  panic, is not modelled.
- Bridges.Bridge.Regs: requires a `Wired` configuration, the one
  src/main.go:81-90 builds (`Model.WiringIsWired`). `MetricKey` dereferences
  the device and channel back-references.
- Executors.Executor.HandleCommand and Executors.Executor.ReadRegister:
  require the command's register to be wired (device, plus a channel for
  reads), as the source dereferences both when building the metric.
- Processors.ChannelProcessor: `Cache()` and `Commander()` are modelled as the
  constant fields fixed by the constructor. The modbus client's handler
  factory and the logger are not modelled.
- The panic for a write to a register that is neither a coil nor a holding
  register is `InvalidWriteType`, with no bus transaction. The executor
  reports it as `crashed`.
