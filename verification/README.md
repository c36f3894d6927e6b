# A verified model of the style parser and the wire reader of mapbox-gl-native

This project models three pieces of the map renderer in Dafny and proves
what they promise.

- **`llmr::pbf`** (`pbf.dfy`, module `Pbf`) reads the Protocol Buffers wire
  encoding from a byte range `[data, end)`. It decodes base-128 varints,
  ZigZag varints, length-delimited strings and fixed-width values, reads
  field keys with `next()`, and skips field values by wire type. The class
  `Pbf` keeps the reader's cursor and its `value`/`tag` fields. Each of its
  methods is proved equal to a pure function of the bytes and the starting
  cursor (`ReadVarint`, `ReadString`, `ReadFixed`, `SkipValueAt`). That
  function gives the result and the cursor afterwards. It does so for
  failures too, because the source throws only after it has moved the
  cursor. Lemmas then prove the following:
  - the decoder inverts the standard encoding;
  - when each of the four exceptions is thrown;
  - how far each reader moves the cursor.
- **`StyleBucket`'s constructor** (`style_bucket.dfy`, module `Bucket`)
  picks the render-settings alternative from the layer type.
- **`mbgl::StyleParser`** walks a parsed style document. It has three parts:
  - `json.dfy` (module `Json`): the rapidjson value, whose members keep
    their document order.
  - `style_properties.dfy` (module `StyleProperties`): the value-level
    readers. These are constant substitution, the typed layout-property
    readers, paint properties, stop functions, `parseLayout` and the
    bucket builder.
  - `style_parser.dfy` (module `StyleParser`): the parser object.
    - Its tables: `constants`, `sources`, `layers`, each layer's `type`
      and `bucket`, and the reference `stack`.
    - Its steps: `parse`, `parseConstants`, `parseSources`,
      `createLayers`/`createLayer`, `parseLayers`, `parseLayer`,
      `parseReference` and `parseBucket`.

  `key_order.dfy` (module `KeyOrder`) gives the order in which the
  `std::map` of layers is walked.

The parser's main results are these:

- After `parse`, every layer that has no `"ref"` and is not on the stack
  has the type its own `"type"` member names and a bucket. Unless it had
  a bucket before, that bucket is the one built from the layer's own
  definition and that type (`Parse`, `ParseLayers`).
- When `parseLayer` reaches a layer with a `"ref"` that has no bucket and
  is not on the stack, `parseReference` leaves it, at the end of that
  call, with the type and the bucket pointer of the layer it names, or
  without a bucket when the `"ref"` names no layer (`Inherits`). This is
  a statement about that call only. `parseLayer` re-reads a layer's own
  `"type"` every time it parses it. Take A `{"type":"fill"}`, B
  `{"type":"line","ref":"A"}` and C `{"ref":"B"}`: parsing C parses B
  again, so B and C end with type line and A's fill bucket.
- Buckets once set are never replaced.
- A circular `"ref"` chain stops at the layer that is already on the
  stack. That layer is left without a bucket.

## Model

| member | source | states |
|---|---|---|
| `Pbf.Pbf.constructor` | include/llmr/util/pbf.hpp:46-49 | the reader starts at offset 0 of a buffer that holds at least `length` bytes, with `end` at `length` |
| `Pbf.Pbf.Varint` | include/llmr/util/pbf.hpp:61-79 | the decoding loop returns exactly what `ReadVarint` says of the bytes in range, and leaves the cursor where it says, on success and on both exceptions |
| `Pbf.VarintSuccess` | include/llmr/util/pbf.hpp:61-79 | a successful varint ends at the first byte whose high bit is clear, within ten bytes, and its value is Σ (bᵢ & 0x7F)·2^(7i) |
| `Pbf.VarintTooLongIff` | include/llmr/util/pbf.hpp:74-76 | varint_too_long is thrown exactly when ten bytes in a row carry the continuation bit |
| `Pbf.VarintUnterminatedIff` | include/llmr/util/pbf.hpp:66-69 | unterminated_varint is thrown exactly when the range ends, less than ten bytes on, before a terminating byte |
| `Pbf.VarintCursor` | include/llmr/util/pbf.hpp:66-73 | the cursor never moves back and never moves more than ten bytes |
| `Pbf.ExtentBounds` | include/llmr/util/pbf.hpp:66-73 | the loop stops within ten bytes; when it stops well, every byte before the last continues the varint and the last does not |
| `Pbf.ExtentTooLong` | include/llmr/util/pbf.hpp:66-76 | after k continuation bytes, the loop ends in varint_too_long exactly when the first ten bytes all continue |
| `Pbf.ExtentUnterminated` | include/llmr/util/pbf.hpp:66-69 | after k continuation bytes, the loop runs off the end exactly when every byte up to the end continues |
| `Pbf.GroupsSnoc` | include/llmr/util/pbf.hpp:70 | or-ing the next seven bits in at `bitpos` adds them: the groups of a byte run plus one byte are the old value plus the new group times 2^(7n) |
| `Pbf.VarintRoundTrip` | include/llmr/util/pbf.hpp:61-79 | the standard encoding of any n < 2^70, wherever it sits, decodes to n and advances by exactly its length |
| `Pbf.Pbf.Svarint` | include/llmr/util/pbf.hpp:81-85 | svarint is varint followed by ZigZag decoding, with varint's cursor and failures |
| `Pbf.ZigZagRoundTrip` | include/llmr/util/pbf.hpp:84 | ZigZag decoding inverts ZigZag encoding on every integer |
| `Pbf.ZigZagOnto` | include/llmr/util/pbf.hpp:84 | ZigZag encoding inverts decoding on every natural number, so the two are a bijection |
| `Pbf.ZigZagBits` | include/llmr/util/pbf.hpp:84 | the source's `(n >> 1) ^ -(n & 1)` in 64 bits is the bit pattern `n >> 1` for even n and its bitwise complement `!(n >> 1)` for odd n |
| `Pbf.Pbf.Next` | include/llmr/util/pbf.hpp:51-58 | at the end of the range it returns false and touches nothing; otherwise it reads one key, stores its low 32 bits in `value` and `value >> 3` in `tag`; on failure `value` and `tag` keep their old values |
| `Pbf.KeyRoundTrip` | include/llmr/util/pbf.hpp:51-58 | a key written as (field << 3) \| wire type that fits 32 bits decodes to that field number and wire type |
| `Pbf.Pbf.SkipBytes` | include/llmr/util/pbf.hpp:136-141 | the cursor moves by n first; end_of_buffer is thrown exactly when it is then past the end |
| `Pbf.FixedAdvance` | include/llmr/util/pbf.hpp:94-111 | skipBytes and the fixed-width reads move the cursor by exactly n; they succeed exactly when n bytes remain, returning those n bytes, and otherwise fail with end_of_buffer |
| `Pbf.Pbf.Fixed` | include/llmr/util/pbf.hpp:94-111 | the shared body of float32/float64/boolean returns the n bytes it skipped, as `ReadFixed` says |
| `Pbf.Pbf.Float32` | include/llmr/util/pbf.hpp:94-99 | float32 consumes and returns four bytes, or fails with end_of_buffer |
| `Pbf.Pbf.Float64` | include/llmr/util/pbf.hpp:101-106 | float64 consumes and returns eight bytes, or fails with end_of_buffer |
| `Pbf.Pbf.Boolean` | include/llmr/util/pbf.hpp:108-111 | boolean consumes and returns one byte, or fails with end_of_buffer |
| `Pbf.Pbf.String` | include/llmr/util/pbf.hpp:87-92 | string reads a length (truncated to uint32), then returns exactly the next that many bytes, as `ReadString` says |
| `Pbf.StringSuccess` | include/llmr/util/pbf.hpp:87-92 | string fails as the length varint fails, or with end_of_buffer exactly when fewer than L bytes follow; otherwise it returns those L bytes and the cursor lands just past them |
| `Pbf.StringRoundTrip` | include/llmr/util/pbf.hpp:87-92 | a varint length followed by that many bytes reads back as those bytes, wherever it sits |
| `Pbf.StringCursor` | include/llmr/util/pbf.hpp:87-92 | string never moves the cursor back, and a success never leaves it past the end |
| `Pbf.Pbf.SkipValue` | include/llmr/util/pbf.hpp:117-134 | skipValue dispatches on `val & 7` exactly as `SkipValueAt` says |
| `Pbf.SkipValueDispatch` | include/llmr/util/pbf.hpp:117-134 | only wire types 0, 1, 2 and 5 are known; each skips a varint, 8 bytes, a length-delimited run or 4 bytes, and any other type fails with unknown_field_type |
| `Pbf.SkipValueCursor` | include/llmr/util/pbf.hpp:117-141 | skipping never moves the cursor back, and a success never leaves it past the end |
| `Pbf.Pbf.Skip` | include/llmr/util/pbf.hpp:113-115 | skip skips the value of the field whose key `next()` last stored |
| `Bucket.RenderFor` | src/mbgl/style/style_bucket.cpp:5-13 | fill, line, symbol and raster each select their own render alternative; every other type selects none |
| `Bucket.NewBucket` | src/mbgl/style/style_bucket.cpp:5-13 | a new bucket has only its render alternative set, from the type |
| `Bucket.RenderForInjective` | src/mbgl/style/style_bucket.cpp:6-12 | distinct render types never select the same alternative |
| `Bucket.RenderForMatches` | src/mbgl/style/style_bucket.cpp:5-13 | the alternative a type selects is the one parseLayout's `render.get<...>()` for that type requires |
| `Json.FindInFirst` | src/mbgl/style/style_parser.cpp:472-478 | `HasMember`/`value[name]` find a member exactly when one exists, and then the first of that name |
| `StyleProperties.ConstantsRecorded` | src/mbgl/style/style_parser.cpp:41-54 | parseConstants records exactly the names that start with '@', never overwrites an entry, and keeps the first value of a repeated name |
| `StyleProperties.ReplaceConstant` | src/mbgl/style/style_parser.cpp:56-65 | a string naming a constant is replaced by that constant's value; every other value, including a string naming no constant, comes back unchanged |
| `StyleProperties.ReplaceIsSingleStep` | src/mbgl/style/style_parser.cpp:56-65 | replacement is done once: a constant whose value names another constant is not followed |
| `StyleProperties.ParseRenderProperty` | src/mbgl/style/style_parser.cpp:68-171 | returns true exactly when the member exists and its substituted value converts; only the named target changes, nothing changes on false, and a stored value fits its target |
| `StyleProperties.ConvertTyped` | src/mbgl/style/style_parser.cpp:109-126 | an accepted value fits its target (a uint16 never receives more than 65535), and the plain kinds store the JSON value read |
| `StyleProperties.ConvertRoundTrip` | src/mbgl/style/style_parser.cpp:68-171 | every value a target can hold is read back from the JSON it is written as |
| `StyleProperties.ApplyFrame` | src/mbgl/style/style_parser.cpp:729-810 | a field that no call of a run of parseRenderProperty calls writes keeps its value |
| `StyleProperties.ApplyReadsOwn` | src/mbgl/style/style_parser.cpp:729-810 | a field read by exactly one call ends up as read from its own member, or unchanged when that member is absent or of the wrong type |
| `StyleProperties.ParseLayout` | src/mbgl/style/style_parser.cpp:729-810 | a non-object changes nothing; otherwise visibility is read, and fill, line and symbol layers get their own run of property reads (`FillLayout`, `LineLayout`, `ParseSymbolLayout`) over their own alternative; other types keep their alternative, and nothing outside layout and render changes |
| `StyleProperties.ParseSymbolLayout` | src/mbgl/style/style_parser.cpp:754-804 | each rotation alignment is read from its own member when that member converts; otherwise, with "symbol-placement" read as "line", it ends as "map" |
| `StyleProperties.AlignmentRead` | src/mbgl/style/style_parser.cpp:763-802 | the symbol run reads each rotation alignment exactly once, from its own member, and leaves it as it was when that member is absent or does not convert |
| `StyleProperties.LineCapReadsOwnMember` | src/mbgl/style/style_parser.cpp:745-751 | a line layer's cap is whatever its "line-cap" member says |
| `StyleProperties.ApplyZooms` | src/mbgl/style/style_parser.cpp:710-726 | a numeric "minzoom" sets the lower bound and a numeric "maxzoom" the upper bound; nothing else changes |
| `StyleProperties.ZoomsKeepBothBounds` | src/mbgl/style/style_parser.cpp:710-726 | a layer that gives both bounds keeps both |
| `StyleProperties.MaxZoomOverwritesMinZoom` | src/mbgl/style/style_parser.cpp:719-726 | as written, a layer with minzoom and maxzoom gets maxzoom as its minimum and no maximum |
| `StyleProperties.BuildBucket` | src/mbgl/style/style_parser.cpp:670-727 | the bucket is named after the layer; its alternative is the type's; a source is bound exactly when it names a parsed source; source-layer and zooms come from their members; the filter is the substituted "filter" member; with "layout", layout and render are `ParseLayout` of the substituted member on a new bucket of the type; without it nothing else is set |
| `StyleProperties.NumbersOf` | src/mbgl/style/style_parser.cpp:218-226 | the element loop succeeds exactly when every element is a number, and then yields one number per element, in order |
| `StyleProperties.ParseFloatArray` | src/mbgl/style/style_parser.cpp:212-228 | parseFloatArray succeeds exactly on an array of numbers, and then returns them in order |
| `StyleProperties.ParseArgument` | src/mbgl/style/style_parser.cpp:230-264 | a function argument is substituted and then converted by its kind: a bool is the bool or a non-zero number, else false; a float is the number, else 0; a colour is the string, else none; a float array is the array of numbers, else empty; it always has the function's value type |
| `StyleProperties.ParseStops` | src/mbgl/style/style_parser.cpp:293-313 | the stops loop succeeds exactly when every element is a two-element array with a numeric zoom, and then yields one stop per element, in order |
| `StyleProperties.ParseFunction` | src/mbgl/style/style_parser.cpp:269-316 | parseFunction succeeds exactly when "stops" is an array of valid stops, and its stops are then exactly `ParseStops` of them, one per element in order; the base is the numeric "base" or the type's default (1.0 for colours, else 1.75) |
| `StyleProperties.ParseTransition` | src/mbgl/style/style_parser.cpp:366-382 | a transition is reported parsed exactly when its duration or its delay is non-zero |
| `StyleProperties.ParseConstant` | src/mbgl/style/style_parser.cpp:384-431 | a bool is a non-zero number or the bool itself; a float is the number, or 1/0 for a bool; anything else is refused for both; a colour is the string, else none; a float array is accepted exactly when it parses, with its numbers; an accepted value has the property's value type |
| `StyleProperties.ParseProperty` | src/mbgl/style/style_parser.cpp:339-431 | for each kind, which JSON values it accepts, both ways, and the value recorded: an object's `ParseFunction`, a constant's `ConstantFunction` of `ParseConstant`, the string itself for string and anchor properties, `ParseTransition` for transitions; a recorded value always has its key's type |
| `StyleProperties.SetProperty` | src/mbgl/style/style_parser.cpp:319-328 | one setting for the key is appended exactly when parseProperty accepts the value, and it holds parseProperty's value; otherwise the class is unchanged |
| `StyleProperties.ParseOptionalProperty` | src/mbgl/style/style_parser.cpp:330-337 | an absent member changes nothing; a present one is `SetProperty` of its substituted value in the single-key form, and in the array form (lines 433-450) the first key from element 0 and then the second from element 1 of an array of at least two; the single-key form reports whether it recorded, the array form reports true |
| `StyleProperties.ParseEntries` | src/mbgl/style/style_parser.cpp:563-643 | a run of parseOptionalProperty calls only appends, and every new setting is one a present member of the table could record |
| `StyleProperties.EntriesRecord` | src/mbgl/style/style_parser.cpp:563-643 | conversely, every single-key entry of the run whose member is present and accepted leaves its setting in the class |
| `StyleProperties.ParsePaint` | src/mbgl/style/style_parser.cpp:563-643 | parsePaint keeps what the class held as a prefix and appends only correctly typed settings for properties the paint object names |
| `StyleProperties.PaintRecords` | src/mbgl/style/style_parser.cpp:563-643 | every single-key paint property that the paint object gives and parseProperty accepts is recorded, with parseProperty's value |
| `StyleProperties.PaintsRouted` | src/mbgl/style/style_parser.cpp:549-561 | the classes parsePaints produces are exactly the default class for "paint" and the looked-up class for each "paint.<name>" member |
| `StyleProperties.PaintsAppend` | src/mbgl/style/style_parser.cpp:549-561 | members feeding a class already present append to it; what it held is kept as a prefix |
| `StyleProperties.PaintsCollected` | src/mbgl/style/style_parser.cpp:549-561 | each class holds exactly what parsePaint makes, member after member in document order, of the members routed to that class (`RoutedTo`) |
| `StyleParser.SourcesRecorded` | src/mbgl/style/style_parser.cpp:176-191 | parseSources creates one source per member name and leaves every other source as it was |
| `StyleParser.NewSourceTileSize` | src/mbgl/style/style_parser.cpp:176-191 | a new source's tile size is set exactly when its "tileSize" is an unsigned integer of at most 65535, and it is then that member's value and fits 16 bits |
| `StyleParser.LayerId` | src/mbgl/style/style_parser.cpp:470-482 | createLayer accepts exactly an object whose "id" member is a string, and takes that string as the id |
| `StyleParser.LayersAccepted` | src/mbgl/style/style_parser.cpp:454-505 | the layer table gains exactly the accepted ids; old entries stay; each new entry is stored under the id of the item that defined it |
| `StyleParser.AcceptedExactly` | src/mbgl/style/style_parser.cpp:454-505 | the group holds every item with a fresh string id, once, and nothing else |
| `StyleParser.FirstDefinition` | src/mbgl/style/style_parser.cpp:454-468 | the position of the first item that defines a layer id, or the length when none does |
| `StyleParser.AcceptedInOrder` | src/mbgl/style/style_parser.cpp:454-468 | the group lists the layers in the order in which the array first defines them |
| `StyleParser.ParsedTypeSettles` | src/mbgl/style/style_parser.cpp:517-524 | the type read from a string "type" member (`ParsedType`; any other value keeps the type) is settled: reading it again changes nothing |
| `StyleParser.StackBound` | src/mbgl/style/style_parser.cpp:531-535 | a stack of distinct layers is never longer than the layer table, so the recursion through "ref" ends |
| `StyleParser.UnbuiltPop` | src/mbgl/style/style_parser.cpp:659-661 | popping a layer and then giving it a bucket leaves every other stacked layer without one |
| `StyleParser.StyleParser.constructor` | src/mbgl/style/style_parser.cpp:15-16 | a new parser has empty tables and an empty stack |
| `StyleParser.StyleParser.ParseConstants` | src/mbgl/style/style_parser.cpp:41-54 | the table after the loop is `AddConstants` of the object's members; a non-object changes nothing |
| `StyleParser.StyleParser.ParseSources` | src/mbgl/style/style_parser.cpp:176-191 | the sources after the loop are `AddSources` of the object's members; a non-object changes nothing |
| `StyleParser.StyleParser.ParsePaints` | src/mbgl/style/style_parser.cpp:549-561 | the loop builds exactly `PaintsFrom` of the layer's members, starting from no classes |
| `StyleParser.StyleParser.CreateLayer` | src/mbgl/style/style_parser.cpp:470-505 | a layer with a fresh string id is stored, untyped and bucketless, with its paints parsed; a non-object, a missing or non-string id, or a duplicate id changes nothing |
| `StyleParser.StyleParser.CreateLayers` | src/mbgl/style/style_parser.cpp:454-468 | on an array, the table is `AddLayers` of the items and the group is the accepted ids in order; otherwise there is no group |
| `StyleParser.StyleParser.ParseBucket` | src/mbgl/style/style_parser.cpp:670-727 | the layer's bucket becomes `BuildBucket` of its definition and current type; nothing else changes |
| `StyleParser.StyleParser.ParseLayer` | src/mbgl/style/style_parser.cpp:513-545 | the type is read first; a layer that has a bucket or is on the stack changes nothing but that type; otherwise it inherits through "ref" or gets `BuildBucket` of its definition; existing buckets are kept; every layer without "ref" keeps or re-reads its type, and every bucket that appears for such a layer is its own |
| `StyleParser.StyleParser.ParseReference` | src/mbgl/style/style_parser.cpp:645-666 | a non-string or unknown ref changes nothing; otherwise the referenced layer is parsed with this one stacked, and this layer takes over its type and bucket; other layers keep or re-read their types and get only their own buckets |
| `StyleParser.StyleParser.TakeOver` | src/mbgl/style/style_parser.cpp:663-665 | the layer's type and bucket pointer become the referenced layer's, and nothing else changes |
| `StyleParser.TakeOverFrames` | src/mbgl/style/style_parser.cpp:659-665 | after the recursive parse and the take-over, buckets are kept, the rest of the stack is unbuilt, and every other layer kept or re-read its type and got only its own bucket |
| `StyleParser.RefFrames` | src/mbgl/style/style_parser.cpp:537-541 | what parseReference leaves for the other layers also holds for parseLayer as a whole |
| `StyleParser.OwnBucket` | src/mbgl/style/style_parser.cpp:542-544 | the bucket parseBucket gives a layer whose type was just read is its own |
| `StyleParser.StyleParser.ParseLayers` | src/mbgl/style/style_parser.cpp:507-511 | after one pass in key order, every layer without "ref" that is not on the stack has the type its definition names and a bucket, which is `BuildBucket` of its definition unless it had one before; buckets already set are kept |
| `StyleParser.LayerStep` | src/mbgl/style/style_parser.cpp:507-511 | one turn of the pass keeps what the earlier turns established and adds the layer it parses |
| `StyleParser.AllParsed` | src/mbgl/style/style_parser.cpp:507-511 | once every key has been visited, every layer without "ref" off the stack has its type and its bucket |
| `StyleParser.StyleParser.ParseSprite` | src/mbgl/style/style_parser.cpp:812-816 | a string sets the sprite URL; anything else leaves it |
| `StyleParser.StyleParser.ParseGlyphURL` | src/mbgl/style/style_parser.cpp:818-822 | a string sets the glyph URL; anything else leaves it |
| `StyleParser.StyleParser.ParseLayerGroup` | src/mbgl/style/style_parser.cpp:27-30 | the group becomes `root`; the table is `AddLayers` of the items; buckets are kept; every layer without "ref" off the stack gets the type its definition names (a new layer from Unknown) and a bucket, its own unless it had one |
| `StyleParser.StyleParser.ParseDefinitions` | src/mbgl/style/style_parser.cpp:19-25 | "constants" is read before "sources", and a missing or non-object member leaves its table as it was |
| `StyleParser.StyleParser.ParseResources` | src/mbgl/style/style_parser.cpp:32-38 | a string "sprite" or "glyphs" member sets its URL; otherwise the URL stays |
| `StyleParser.StyleParser.Parse` | src/mbgl/style/style_parser.cpp:18-39 | parse reads constants, sources, layers, sprite and glyphs in that order; constants and sources are `AddConstants` and `AddSources` of their object members. With "layers", `root` is the accepted group, the table is `AddLayers` of an array, and every layer without "ref" off the stack has its definition's type and a bucket, `BuildBucket` of its definition unless it had one. Without "layers", the layers, buckets and root are unchanged |
| `KeyOrder.LeastKey` | src/mbgl/style/style_parser.cpp:507-511 | every non-empty key set has a unique first key under std::string's order |
| `KeyOrder.SortedKeysComplete` | src/mbgl/style/style_parser.cpp:507-511 | the walk over the layer table visits every key and nothing else |
| `KeyOrder.SortedKeysAscending` | src/mbgl/style/style_parser.cpp:507-511 | the walk visits the keys in ascending order, each exactly once |

## Left out

- Floating point: numbers keep the form they were written in (an integer
  or a `real`). `GetDouble()` conversions, the float narrowing of stored
  values, and IEEE reinterpretation in `float32`/`float64` are not
  modelled. `boolean` returns the raw byte.
- `Pbf.Pbf.Varint`: returns the full value of up to ten groups as an
  unbounded number. The accumulator width `T` is not modelled; for the
  default `uint32_t`, shifting by 32 bits or more is undefined in C++.
  The low 32 bits are taken (`ToUint32`) where the source stores the
  result into a `uint32_t` (`next`, `string`, `skipValue`).
- `Pbf.ZigZagBits`: `svarint` is modelled for the unbounded value
  (`ZigZagDecode`). The lemma compares bit patterns only: it shows the
  64-bit formula gives `n >> 1` or its complement. That these patterns,
  read as two's complement numbers, equal `ZigZagDecode(n)` is not
  proved.
- `Pbf.Pbf.constructor`: the C++ pointer arithmetic is not modelled. The
  cursor is an offset, and `end` must lie within the caller's buffer.
- `parseColor` and its CSS colour parser are not part of this model. A
  colour is kept as its CSS text, and a non-string becomes "transparent
  black" (`None`).
- The enum tables (`*TypeClass`) are not part of this model. An enum
  property stores the name it was parsed from. `StyleLayerTypeClass` and
  `ClassDictionary::lookup` are the parser's function-valued constants
  `layerTypeOf` and `classIdOf`.
- `SourceInfo::parseTileJSONProperties` is not part of this model. A
  source records only "type", "url" and "tileSize".
- `StyleProperties.BuildBucket`: uses the corrected `ApplyZooms` (see
  "## Findings"), not the as-written `ApplyZoomsAsWritten`, in which a
  numeric "maxzoom" overwrites the minimum zoom.
- `parseFilterExpression` is not part of this model. A bucket keeps the
  substituted filter JSON.
- Struct default values (the headers that declare them are not part of
  this model). A field absent from a settings map still holds its
  default.
- `Log::Warning` and `fprintf` messages are not modelled. A warning path
  is the function's "not parsed" result.
- rapidjson asserts that `HasMember` and `operator[]` are used on objects.
  Here a non-object has no members (`Json.Find`).
- `StyleProperties.ParseOptionalProperty`: the array form indexes
  elements 0 and 1 even when the value is not an array or has fewer
  than two elements. rapidjson leaves that undefined. Here such a value
  records nothing.
- `StyleProperties.ParseTransition`: a numeric duration or delay that is
  not an unsigned integer reads as 0. The source calls `GetUint()` on
  it, which rapidjson does not define.
- `Vec2Property`: the two elements are kept as raw JSON, because the
  source's `GetDouble()` on them is not checked.
- Shared layer objects are not modelled as pointers. Each `StyleLayer` is
  identified by its unique id. Its `type` and `bucket` fields live in the
  parser's `types` and `buckets` tables. A bucket taken over through
  "ref" is a copy of the value, so later changes made through one
  pointer would not show through the other. None are made after
  `parseReference`.
- The stack holds layer ids rather than pointers. Its distinctness is an
  invariant (`StackValid`).
- The "ref" member of a layer is looked up once, when the layer is
  created, and kept in `LayerDef.ref`. The definition never changes
  afterwards, so this is the same as looking it up in `parseLayer`.
- The `std::map` key order is the lexicographic order on characters.
  Byte-wise `char` comparison of non-ASCII text is not distinguished.
- `createLayers` returns the group. Here the group is stored directly in
  `root`, as `parse` does with it.
- `StyleLayerGroup`, `StyleSource` objects and the rest of the renderer
  (tile data, file sources, shaders) are outside this model.

## Findings

| source | as written | input that shows it | evidently intended | confidence | as-written member | corrected member |
|---|---|---|---|---|---|---|
| src/mbgl/style/style_parser.cpp:719-726 | a numeric "maxzoom" is stored into `min_zoom` | a layer `{"minzoom": 2, "maxzoom": 10}` ends with minimum zoom 10 and no maximum | "maxzoom" sets `max_zoom`, so the layer keeps 2 and 10 | not executed | `StyleProperties.MaxZoomOverwritesMinZoom` (over `StyleProperties.ApplyZoomsAsWritten`) | `StyleProperties.ZoomsKeepBothBounds` (over `StyleProperties.ApplyZooms`, which `BuildBucket` uses) |
