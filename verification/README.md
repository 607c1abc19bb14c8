# BoxData tag codecs

BoxData stores a tree of tags in a compact binary format: numbers, strings,
byte/int/long arrays, lists of tags sharing one type, and compounds (maps
from names to child tags). This project models the two tag codecs in the
repository and the byte stream beneath them:

- **The byte stream** (`SharedCode/BoxDataStream.swift`, module
  `DataStream`). Writers append bytes; readers consume the unread bytes and
  hand back the value and whatever is still unread. All integers are
  big-endian two's complement. Floats and doubles travel as opaque bit
  patterns. A string is a one-byte length and then the bytes, except that the
  empty string writes nothing at all.
- **The structure-cached codec** (`BoxData/Classes/BoxTag.swift`, modules
  `CachedTag`, `CachedCodec`, `CachedProofs`, `CachedRoundTrip`,
  `CachedOrder`, `CachedRoot`, `CachedBudget`, `CachedSize`). Ids run 0..10. A compound writes its
  children sorted by key and ends with an End byte. With `useStructureCache`
  on, a list of compounds writes the first element's *structure* (names and
  ids) once, and then only the bare values of every element.
- **The versioned-envelope codec** (`BoxData/BoxData/BoxTag.swift`, modules
  `EnvelopeTag`, `EnvelopeCodec`, `EnvelopeProofs`, `EnvelopeRoundTrip`,
  `EnvelopeRoot`, `EnvelopeByteArray`, `EnvelopeOrder`, `EnvelopeBudget`).
  Ids run 0..12. The
  root is preceded by a magic byte `0x42` and a version byte `1`. A compound
  writes its children in whatever order the dictionary yields them.

Both codecs thread a nesting budget `maxDepth` (default 512, module
`MaxDepth`) through every call. `decrementMaxDepth` asserts the budget is
positive. The model keeps that assertion as it behaves in a debug build:
`Trap(DepthExhausted)`. The `*Budget` modules say which trees write at
all: those whose every length fits its field (`Fits`) and whose nesting
lies within the budget (`DepthAtMost`). A chain of compounds deeper than
the budget stops with that trap (`*Budget.NestBudget`).

Failures are values of `Results.Result`:

- `ReadError`: a read past the end of the input.
- `DataCorrupted(b)`: the thrown `dataCorrupted` error.
- `Trap(...)`: a Swift runtime trap. This covers a failed `assert` or
  `precondition`, a force-unwrap of `nil`, and a `UInt8(...)`/`UInt32(...)`
  conversion that overflows.

The dictionary iteration order is a parameter `iter` of every writer: a
function from a dictionary's contents to its keys, constrained only to list
each key exactly once (`KeyOrder.Enumerates`; `KeyOrder.EnumeratesExists`
shows such a function exists). Every property holds for every such function. Because the order is a function of the contents, two
equal dictionaries in one tree are listed in the same order (see Left out).
`useStructureCache` is a parameter `cache` of the cached codec. The
envelope codec's `ByteArrayTag.tagID()` is a parameter `rev`: `AsWritten`
answers `.longArray` as the source does, and `Fixed` answers `.byteArray`.

Seven behaviours of the code that a reader of its comments or its id table
might not expect, each modelled as written:

- The envelope codec writes a compound's children in whatever order the
  dictionary yields them (BoxData/BoxData/BoxTag.swift:626), so its bytes
  depend on that order (`EnvelopeOrder.OrderShows`). Only the cached codec
  sorts them (BoxData/Classes/BoxTag.swift:695), as the comment on its
  `CompoundTag` asks (line 675).
- The magic byte and the version are checked by `precondition`
  (BoxData/BoxData/BoxTag.swift:137-139). A wrong one stops the process
  instead of throwing (`EnvelopeRoot.HeaderChecked`).
- For an unknown id, the envelope `fromID` force-unwraps `TagID(rawValue:)`
  and traps (BoxData/BoxData/BoxTag.swift:61-77). The cached `fromID` throws
  `dataCorrupted` instead (BoxData/Classes/BoxTag.swift:62-82).
- The depth guard in `decrementMaxDepth` is an `assert`
  (BoxData/BoxData/BoxTag.swift:154-155). It traps in debug builds and is
  compiled out of release builds.
- `EndTag` has no `tagID()` of its own, and the base `Tag.tagID()` is a
  `fatalError` (BoxData/BoxData/BoxTag.swift:98-101, BoxData/Classes/BoxTag.swift:102-105).
  Every place the writer asks a tag for its id therefore traps on an End:
  `_serialize` for the root or a compound's child (`*.RootEndTraps`,
  `*.EndChildTraps`), the list writer for a first element, and, in the cached
  codec, `serializeDataStructure` for a structure entry. So the `id != .end`
  test in `_serialize` never sees an End. `EndTag.serializeValue` alone writes
  the single `0`. It ends every compound and structure, and an End after a
  list's first element reaches it, which the reader then takes as a value of
  the first element's kind (`*.EndLaterElement`).
- The structure-cached list reader does not spend budget the way the writer
  does. `deserializeFixCompoundStructure` (BoxData/Classes/BoxTag.swift:734-758)
  never checks the depth, so `CachedCodec.DecodeSchema` takes no budget.
  `deserializeFixCompound` (lines 714-730) passes `maxDepth - 1` down
  without `decrementMaxDepth`, so `CachedCodec.DecodeFix` never traps for
  the budget. Only the ordinary value readers below them trap for it.
- The `TagID` enum numbers the byte array 7 (BoxData/BoxData/BoxTag.swift:21-35).
  The envelope `ByteArrayTag` nevertheless reports `.longArray` (see
  Findings).

## Model

| member | source | states |
|---|---|---|
| MaxDepth.Decrement | BoxData/Classes/BoxTag.swift:155-160 | the budget goes one down exactly when it is positive; otherwise the run traps |
| DataStream.BitPattern | SharedCode/BoxDataStream.swift:166-192 | a signed value's unsigned bit pattern is below 256^n and is the value itself, or the value plus 256^n exactly when the value is negative |
| DataStream.FromBitPattern | SharedCode/BoxDataStream.swift:69-94 | reading a bit pattern as signed gives a value in range whose bit pattern is the one read (the inverse of `BitPattern`) |
| DataStream.WriteUnsigned | SharedCode/BoxDataStream.swift:166-192 | an unsigned write is n bytes whose big-endian value is the number written |
| DataStream.WriteSigned | SharedCode/BoxDataStream.swift:166-192 | a signed write is n bytes whose big-endian pattern, read as signed, is the number written |
| DataStream.WriteFloat | SharedCode/BoxDataStream.swift:194-196 | a float is four bytes carrying its 32-bit pattern |
| DataStream.WriteDouble | SharedCode/BoxDataStream.swift:197-199 | a double is eight bytes carrying its 64-bit pattern |
| DataStream.WriteString | SharedCode/BoxDataStream.swift:213-219 | the empty string writes nothing; otherwise the string writes a length byte plus the bytes; more than 255 bytes traps |
| DataStream.WriteBool | SharedCode/BoxDataStream.swift:221-223 | one byte: exactly `0xff` for true and `0x00` for false |
| DataStream.WriteCount | BoxData/Classes/BoxTag.swift:582-583 | a count is four bytes holding it when it is below 2^32; otherwise `UInt32(count)` traps |
| DataStream.WriteArray | BoxData/BoxData/BoxTag.swift:544-550 | an array is its count and then n bytes per element; it traps at 2^32 elements |
| DataStream.ReadBytes | SharedCode/BoxDataStream.swift:46-60 | taking n bytes succeeds exactly when n remain; the bytes taken followed by the rest are the input |
| DataStream.ReadUInt8 | SharedCode/BoxDataStream.swift:62-67 | one byte is read exactly when one remains, and the rest is what follows it |
| DataStream.ReadUnsigned | SharedCode/BoxDataStream.swift:69-94 | an n-byte read succeeds exactly when n bytes remain; writing the result back gives the bytes consumed |
| DataStream.ReadSigned | SharedCode/BoxDataStream.swift:62-94 | a signed read succeeds exactly when n bytes remain, gives a value in range, and writing it back gives the bytes consumed |
| DataStream.ReadFloat | SharedCode/BoxDataStream.swift:96-99 | four bytes are read back as the float whose write they are |
| DataStream.ReadDouble | SharedCode/BoxDataStream.swift:101-104 | eight bytes are read back as the double whose write they are |
| DataStream.ReadString | SharedCode/BoxDataStream.swift:116-124 | a string read succeeds exactly when the length byte's worth of bytes follows it; the length byte, the string and the rest are the input |
| DataStream.ReadBool | SharedCode/BoxDataStream.swift:126-129 | a byte is true exactly when it is non-zero |
| DataStream.ReadSignedRun | BoxData/BoxData/BoxTag.swift:553-562 | `count` elements are read exactly when count·n bytes remain; writing them back gives the bytes consumed |
| DataStream.ReadArray | BoxData/BoxData/BoxTag.swift:553-562 | an array read succeeds exactly when four count bytes and then the count's worth of n-byte elements follow; every element fits n bytes, and writing the count and the elements back gives the bytes consumed |
| DataStream.UnsignedRoundTrip | SharedCode/BoxDataStream.swift:82-85 | an unsigned number written and read back at the same width is itself, and the read stops where the write ended |
| DataStream.SignedRoundTrip | SharedCode/BoxDataStream.swift:166-192 | a signed number written and read back at the same width is itself |
| DataStream.FloatRoundTrip | SharedCode/BoxDataStream.swift:96-99 | a float pattern survives a write and a read |
| DataStream.DoubleRoundTrip | SharedCode/BoxDataStream.swift:101-104 | a double pattern survives a write and a read |
| DataStream.SignedRunRoundTrip | BoxData/BoxData/BoxTag.swift:546-560 | a run of elements written back to back reads back as itself when its length is known |
| DataStream.ArrayRoundTrip | BoxData/BoxData/BoxTag.swift:543-562 | an array of fewer than 2^32 elements is written and reads back as itself, stopping where it ended |
| DataStream.StringRoundTrip | SharedCode/BoxDataStream.swift:213-219 | a string of 1..255 bytes reads back as itself and leaves what follows unread |
| DataStream.EmptyStringNotRecovered | SharedCode/BoxDataStream.swift:116-118 | the empty string writes no bytes, so the reader takes the next byte as a length and never returns the empty string with the rest untouched |
| DataStream.BoolRoundTrip | SharedCode/BoxDataStream.swift:126-129 | a boolean survives a write and a read |
| DataStream.ShortReadFails | SharedCode/BoxDataStream.swift:46-60 | with fewer than n bytes left, an n-byte read is a read error |
| KeyOrder.BelowTransitive | BoxData/Classes/BoxTag.swift:695 | the key order the sort uses is transitive |
| KeyOrder.BelowTotal | BoxData/Classes/BoxTag.swift:695 | any two distinct keys are ordered one way or the other |
| KeyOrder.BelowIrreflexive | BoxData/Classes/BoxTag.swift:695 | no key is below itself |
| KeyOrder.Sort | BoxData/Classes/BoxTag.swift:695 | sorting keeps exactly the keys it was given |
| KeyOrder.SortSorted | BoxData/Classes/BoxTag.swift:695 | the sort's output is in ascending key order |
| KeyOrder.SortedUnique | BoxData/Classes/BoxTag.swift:695 | two sorted lists of the same keys are the same list |
| KeyOrder.SortCanonical | BoxData/Classes/BoxTag.swift:695 | any two enumerations of one key set sort to the same list, which lists each key once in order |
| KeyOrder.SortedKeys | BoxData/Classes/BoxTag.swift:695 | the sorted keys are keys of the dictionary |
| KeyOrder.SortedKeysSpec | BoxData/Classes/BoxTag.swift:695 | the sorted keys are ascending and list every key of the dictionary exactly once |
| KeyOrder.SortedKeysCanonical | BoxData/Classes/BoxTag.swift:695 | the sorted keys do not depend on the iteration order |
| KeyOrder.SameKeysSameOrder | BoxData/Classes/BoxTag.swift:695 | two dictionaries with the same keys are written in the same key order |
| KeyOrder.EnumeratesExists | BoxData/BoxData/BoxTag.swift:626 | some iteration order lists every key of every dictionary exactly once, so the order every round trip assumes can be met |
| KeyOrder.DictKeys | BoxData/BoxData/BoxTag.swift:626 | a dictionary loop visits every key exactly once |
| KeyOrder.PickAll | BoxData/BoxData/BoxTag.swift:632-653 | collecting the entries of every listed key rebuilds the dictionary |
| CachedTag.FromId | BoxData/Classes/BoxTag.swift:62-82 | bytes 0..10 name an id whose code is that byte; any other byte throws `dataCorrupted` |
| CachedTag.FromIdOfCode | BoxData/Classes/BoxTag.swift:21-33 | every id's code reads back as that id; only End has code 0 and only Compound has code 9 |
| CachedTag.Code | BoxData/Classes/BoxTag.swift:21-33 | the byte written for an id is one of 0..10, the bytes `fromID` accepts (its inverse is `FromIdOfCode`) |
| CachedTag.IdOfKinds | BoxData/Classes/BoxTag.swift:44-58 | the id of each tag class, its `tagID()` override or, for End, which has none, the `.end` of `idFromType`: only End has `.end`, only a list or a compound has `.list` or `.compound`, and only a compound's id byte is 9 |
| CachedCodec.Serialize | BoxData/Classes/BoxTag.swift:121-137 | an End root traps on the `tagID()` it lacks; any other written root is never empty and opens with its own id byte |
| CachedCodec.SerializeNamed | BoxData/Classes/BoxTag.swift:128-137 | an End traps on `tagID()` before anything is written; any other written named tag opens with its id byte |
| CachedCodec.SerializeValue | BoxData/Classes/BoxTag.swift:276-701 | only a string, a byte array, a list or a compound can fail to write; a list whose first element is End traps on that element's `tagID()` after its count; End alone writes its single `0`, and a compound's bytes end with that byte |
| CachedCodec.SerializeFields | BoxData/Classes/BoxTag.swift:694-697 | a child with no budget left traps, and an End child within budget traps on `tagID()`; written children are no End and open with the first child's id byte |
| CachedCodec.SerializeElements | BoxData/Classes/BoxTag.swift:594-598 | an element with no budget left traps |
| CachedCodec.SerializeFixElements | BoxData/Classes/BoxTag.swift:626-632 | an element that is not a compound traps on `as! CompoundTag`, one with no budget left traps, and a write that succeeds saw only compounds |
| CachedCodec.SerializeFromList | BoxData/Classes/BoxTag.swift:703-711 | an empty compound's bare values are no bytes at all |
| CachedCodec.FromListFields | BoxData/Classes/BoxTag.swift:703-711 | a field with no budget left traps |
| CachedCodec.SerializeStructure | BoxData/Classes/BoxTag.swift:760-774 | a structure ends with the End byte 0; an empty compound's structure is that byte alone |
| CachedCodec.StructureFields | BoxData/Classes/BoxTag.swift:762-771 | an End entry traps on `tagID()`; entries whose names fit and that are neither End nor a nested compound always write; written entries are no End and open with the first entry's id byte |
| CachedCodec.NestedStructure | BoxData/Classes/BoxTag.swift:768-770 | a nested structure with no budget left traps; a written one ends with the End byte 0 |
| CachedCodec.DecodeValue | BoxData/Classes/BoxTag.swift:331-799 | every value read consumes at least one byte |
| CachedCodec.DecodeFix | BoxData/Classes/BoxTag.swift:714-730 | an element read by a structure holds every name the structure lists |
| CachedCodec.Deserialize | BoxData/Classes/BoxTag.swift:140-151 | a successful read consumes at least one byte |
| CachedCodec.DecodeFields | BoxData/Classes/BoxTag.swift:778-799 | a compound read consumes at least one byte, its terminator |
| CachedCodec.DecodeElements | BoxData/Classes/BoxTag.swift:601-622 | a list read yields exactly the count it was asked for |
| CachedCodec.DecodeSchema | BoxData/Classes/BoxTag.swift:734-758 | a structure read consumes at least one byte, its terminator |
| CachedCodec.DecodeFixElements | BoxData/Classes/BoxTag.swift:634-644 | a structure-cached list read yields exactly the count asked for, every one a compound |
| CachedProofs.IntegerRoundTrip | BoxData/Classes/BoxTag.swift:321-420 | Byte, Short, Int and Long always write and read back as themselves |
| CachedProofs.BitsRoundTrip | BoxData/Classes/BoxTag.swift:437-478 | Float and Double always write and read back as themselves |
| CachedProofs.StrRoundTrip | BoxData/Classes/BoxTag.swift:496-508 | a non-empty string tag that writes reads back as itself |
| CachedProofs.ByteArrayRoundTrip | BoxData/Classes/BoxTag.swift:525-548 | a byte array is written as its count and bytes, and reads back as itself |
| CachedProofs.ScalarRoundTrip | BoxData/Classes/BoxTag.swift:321-548 | every accepted tag without children reads back as itself |
| CachedProofs.StructureRoundTrip | BoxData/Classes/BoxTag.swift:734-774 | the structure written for a compound reads back as exactly that compound's structure |
| CachedProofs.StructureFieldsRoundTrip | BoxData/Classes/BoxTag.swift:760-774 | the structure entries of any list of keys, followed by the terminator, read back as those entries |
| CachedProofs.NestedFieldRoundTrip | BoxData/Classes/BoxTag.swift:740-750 | a nested compound's sub-structure reads back within its parent's structure |
| CachedRoundTrip.ValueRoundTrip | BoxData/Classes/BoxTag.swift:778-799 | every accepted tag that writes within its budget reads back as itself under any reader budget at least as large |
| CachedRoundTrip.CompoundRoundTrip | BoxData/Classes/BoxTag.swift:694-701 | a compound's sorted children and End read back as the same map |
| CachedRoundTrip.FieldsRoundTrip | BoxData/Classes/BoxTag.swift:714-730 | the entries of any list of keys, followed by the terminator, read back as exactly those entries |
| CachedRoundTrip.ListRoundTrip | BoxData/Classes/BoxTag.swift:582-622 | a list reads back as itself, empty or not |
| CachedRoundTrip.ListCachedRoundTrip | BoxData/Classes/BoxTag.swift:591-592 | with the cache on, a list of compounds written as one structure plus bare values reads back as itself |
| CachedRoundTrip.ListPlainRoundTrip | BoxData/Classes/BoxTag.swift:594-598 | any other non-empty list, written element by element, reads back as itself |
| CachedRoundTrip.ElementsRoundTrip | BoxData/Classes/BoxTag.swift:612-620 | the elements from position i on read back as that suffix |
| CachedRoundTrip.FixElementsRoundTrip | BoxData/Classes/BoxTag.swift:626-644 | bare values of the elements from i on read back as that suffix under the first element's structure |
| CachedRoundTrip.FromListRoundTrip | BoxData/Classes/BoxTag.swift:703-730 | an element with the first element's layout, written as bare values, reads back as itself |
| CachedRoundTrip.FromListFieldsRoundTrip | BoxData/Classes/BoxTag.swift:703-711 | the bare values of any list of keys read back as exactly those entries |
| CachedOrder.SerializeSame | BoxData/Classes/BoxTag.swift:121-125 | the root's bytes, or its error, are the same under any two iteration orders |
| CachedOrder.NamedSame | BoxData/Classes/BoxTag.swift:128-137 | a named tag is written the same way under any two iteration orders |
| CachedOrder.ValueSame | BoxData/Classes/BoxTag.swift:694-701 | a value is written the same way under any two iteration orders |
| CachedOrder.FieldsSame | BoxData/Classes/BoxTag.swift:695-697 | the children are written the same way under any two iteration orders |
| CachedOrder.ElementsSame | BoxData/Classes/BoxTag.swift:595-597 | list elements are written the same way under any two iteration orders |
| CachedOrder.FixElementsSame | BoxData/Classes/BoxTag.swift:626-632 | structure-cached elements are written the same way under any two iteration orders |
| CachedOrder.FromListSame | BoxData/Classes/BoxTag.swift:703-711 | an element's bare values are written the same way under any two iteration orders |
| CachedOrder.FromListFieldsSame | BoxData/Classes/BoxTag.swift:703-711 | the bare values of a list of keys are written the same way under any two iteration orders |
| CachedOrder.StructureSame | BoxData/Classes/BoxTag.swift:760-774 | a structure is written the same way under any two iteration orders |
| CachedOrder.StructureFieldsSame | BoxData/Classes/BoxTag.swift:760-774 | structure entries are written the same way under any two iteration orders |
| CachedRoot.RoundTrip | BoxData/Classes/BoxTag.swift:121-151 | the root is its id and value, written exactly when the value is; it reads back as itself and leaves what follows unread |
| CachedRoot.RootFrame | BoxData/Classes/BoxTag.swift:121-137 | a root other than End is an id byte, no name, and then its value |
| CachedRoot.RootRead | BoxData/Classes/BoxTag.swift:140-151 | after a non-End id byte, the reader reads exactly that id's value |
| CachedRoot.RootEndTraps | BoxData/Classes/BoxTag.swift:128-130 | an End root traps on the `tagID()` it lacks, while a lone zero id reads as End and the reader takes nothing after it |
| CachedRoot.EmptyCompound | BoxData/Classes/BoxTag.swift:694-701 | an empty compound is one terminator byte when the budget is positive and traps otherwise; it reads back from that byte |
| CachedRoot.EmptyList | BoxData/Classes/BoxTag.swift:582-585 | an empty list is a zero count at any budget, and reads back as the empty list |
| CachedRoot.EndChildTraps | BoxData/Classes/BoxTag.swift:694-697 | a compound whose child is End traps on the child's `tagID()` when the budget is positive and on the budget otherwise |
| CachedRoot.WrittenHasNoEndChild | BoxData/Classes/BoxTag.swift:694-697 | a compound that writes has no End child |
| CachedRoot.StructureHasNoEnd | BoxData/Classes/BoxTag.swift:762-771 | a structure that writes has no End entry |
| CachedRoot.EndLaterElement | BoxData/Classes/BoxTag.swift:586-598 | `[Byte(0), End]` writes as count 2, id 1 and two zeros, only the first element being asked for its id, and reads back as `[Byte(0), Byte(0)]` |
| CachedRoot.NoBudgetNoChildren | BoxData/Classes/BoxTag.swift:582-598 | with no budget, every compound and every uncached non-empty list traps for the budget, except that a list whose first element is End traps on its `tagID()` first (the general case is `CachedBudget.ValueBudget`) |
| CachedBudget.ValueBudget | BoxData/Classes/BoxTag.swift:276-701 | with the cache off, a value writes exactly when every length fits its field, no child of a compound and no first element of a list is End, and every compound and child lies within the budget; when those hold but the budget does not, the failure is the budget's trap |
| CachedBudget.FieldsBudget | BoxData/Classes/BoxTag.swift:694-697 | with the cache off, the children of a list of keys write exactly when each is not End, fits and lies within one level less |
| CachedBudget.ElementsBudget | BoxData/Classes/BoxTag.swift:594-598 | with the cache off, the elements from i on write exactly when each fits and lies within one level less; an End element here writes its `0` |
| CachedBudget.SerializeBudget | BoxData/Classes/BoxTag.swift:121-137 | with the cache off, the root writes exactly when it is not End, fits and lies within the budget, and otherwise, when it is not End and fits, fails for the budget |
| CachedBudget.ValueWrites | BoxData/Classes/BoxTag.swift:582-701 | with the cache on or off, a tag the codec reads back writes whenever it fits and lies within the budget |
| CachedBudget.FixElementsWrite | BoxData/Classes/BoxTag.swift:626-632 | every element of a list of compounds, written as bare values, writes when the list fits and lies within the budget |
| CachedBudget.FromListWrites | BoxData/Classes/BoxTag.swift:703-711 | an element's bare values write whenever it fits and lies within the budget |
| CachedBudget.StructureWrites | BoxData/Classes/BoxTag.swift:760-774 | the first element's structure writes whenever that element fits and lies one level inside the list's budget |
| CachedBudget.SerializeWrites | BoxData/Classes/BoxTag.swift:121-137 | with the cache on or off, a root the codec reads back writes whenever it fits and lies within the budget |
| CachedBudget.OneChild | BoxData/Classes/BoxTag.swift:694-699 | a compound with one named child writes exactly when the budget is positive and the child writes one level down |
| CachedBudget.NestBudget | BoxData/Classes/BoxTag.swift:155-160 | a chain of n nested compounds writes exactly when the budget is at least n, with the cache on or off; a deeper chain traps for the budget |
| CachedSize.ValueNoLonger | BoxData/Classes/BoxTag.swift:582-598 | a tag the codec reads back that writes both ways is never longer with the structure cache than without it |
| CachedSize.FixNoLonger | BoxData/Classes/BoxTag.swift:626-632 | the bare values of the elements from i on, plus one structure per element, take no more bytes than those elements written whole |
| CachedSize.ElementNoLonger | BoxData/Classes/BoxTag.swift:703-711 | one element's bare values plus its structure take no more bytes than the element written whole |
| CachedSize.CacheShortensList | BoxData/Classes/BoxTag.swift:589-592 | a list of two or more compounds that the codec reads back and that writes both ways is strictly shorter with the cache |
| EnvelopeTag.FromId | BoxData/BoxData/BoxTag.swift:61-77 | bytes 0..12 name an id whose code is that byte; any other byte traps on the force-unwrap |
| EnvelopeTag.FromIdOfCode | BoxData/BoxData/BoxTag.swift:21-35 | every id's code reads back as that id, and only End has code 0 |
| EnvelopeTag.Code | BoxData/BoxData/BoxTag.swift:21-35 | the byte written for an id is one of 0..12, the bytes `fromID` accepts (its inverse is `FromIdOfCode`) |
| EnvelopeTag.IdOfKinds | BoxData/BoxData/BoxTag.swift:313-683 | the id of each tag class, its `tagID()` override or, for End, which has none, the `.end` of `idFromType`: only End, lists and compounds report their ids; a byte array reports `.byteArray` only under the corrected revision, and `.longArray` (shared with long arrays) as written |
| EnvelopeCodec.Serialize | BoxData/BoxData/BoxTag.swift:115-132 | an End root traps on the `tagID()` it lacks; any other written output opens with the magic byte, the version and the root's id byte |
| EnvelopeCodec.SerializeNamed | BoxData/BoxData/BoxTag.swift:123-132 | an End traps on `tagID()` before anything is written; any other written named tag opens with its id byte |
| EnvelopeCodec.SerializeValue | BoxData/BoxData/BoxTag.swift:274-695 | only a string, an array, a list or a compound can fail to write; a list whose first element is End traps on that element's `tagID()` after its count; End alone writes its single `0`, and a compound's bytes end with that byte |
| EnvelopeCodec.SerializeFields | BoxData/BoxData/BoxTag.swift:625-628 | a child with no budget left traps, and an End child within budget traps on `tagID()`; written children are no End and open with the first child's id byte |
| EnvelopeCodec.SerializeElements | BoxData/BoxData/BoxTag.swift:691-694 | an element with no budget left traps |
| EnvelopeCodec.DecodeValue | BoxData/BoxData/BoxTag.swift:321-712 | every value read consumes at least one byte |
| EnvelopeCodec.Deserialize | BoxData/BoxData/BoxTag.swift:135-149 | a successful read consumes at least one byte |
| EnvelopeCodec.DecodeFields | BoxData/BoxData/BoxTag.swift:632-653 | a compound read consumes at least one byte, its terminator |
| EnvelopeCodec.DecodeElements | BoxData/BoxData/BoxTag.swift:697-712 | a list read yields exactly the count it was asked for |
| EnvelopeProofs.ByteRoundTrip | BoxData/BoxData/BoxTag.swift:313-323 | a Byte is its one byte and reads back as itself |
| EnvelopeProofs.ShortRoundTrip | BoxData/BoxData/BoxTag.swift:340-350 | a Short is its two bytes and reads back as itself |
| EnvelopeProofs.IntRoundTrip | BoxData/BoxData/BoxTag.swift:367-377 | an Int is its four bytes and reads back as itself |
| EnvelopeProofs.LongRoundTrip | BoxData/BoxData/BoxTag.swift:394-404 | a Long is its eight bytes and reads back as itself |
| EnvelopeProofs.FloatTagRoundTrip | BoxData/BoxData/BoxTag.swift:421-431 | a Float is its 32-bit pattern and reads back as itself |
| EnvelopeProofs.DoubleTagRoundTrip | BoxData/BoxData/BoxTag.swift:448-458 | a Double is its 64-bit pattern and reads back as itself |
| EnvelopeProofs.StrRoundTrip | BoxData/BoxData/BoxTag.swift:476-486 | a non-empty String of at most 255 bytes reads back as itself |
| EnvelopeProofs.ByteArrayRoundTrip | BoxData/BoxData/BoxTag.swift:506-524 | under the corrected id, a byte array reads back through the byte-array reader as itself |
| EnvelopeProofs.IntArrayRoundTrip | BoxData/BoxData/BoxTag.swift:541-562 | an int array is its count and 4 bytes per element, and reads back as itself |
| EnvelopeProofs.LongArrayRoundTrip | BoxData/BoxData/BoxTag.swift:580-601 | a long array is its count and 8 bytes per element, and reads back as itself |
| EnvelopeProofs.ScalarRoundTrip | BoxData/BoxData/BoxTag.swift:313-601 | every accepted tag without children reads back as itself |
| EnvelopeRoundTrip.ValueRoundTrip | BoxData/BoxData/BoxTag.swift:123-149 | every accepted tag that writes within its budget reads back as itself, whatever the iteration order, under any reader budget at least as large |
| EnvelopeRoundTrip.CompoundRoundTrip | BoxData/BoxData/BoxTag.swift:625-653 | a compound's children in dictionary order, then End, read back as the same map |
| EnvelopeRoundTrip.FieldsRoundTrip | BoxData/BoxData/BoxTag.swift:632-653 | the entries of any list of keys, followed by the terminator, read back as exactly those entries |
| EnvelopeRoundTrip.ListRoundTrip | BoxData/BoxData/BoxTag.swift:685-712 | a list reads back as itself, empty or not |
| EnvelopeRoundTrip.ElementsRoundTrip | BoxData/BoxData/BoxTag.swift:706-710 | the elements from position i on read back as that suffix |
| EnvelopeRoot.RoundTrip | BoxData/BoxData/BoxTag.swift:115-149 | the output is magic, version, id and value, written exactly when the value is; it reads back as the root and leaves what follows unread |
| EnvelopeRoot.RootFrame | BoxData/BoxData/BoxTag.swift:115-120 | a root other than End is magic, version, its id, no name, and its value |
| EnvelopeRoot.NamedFrame | BoxData/BoxData/BoxTag.swift:123-132 | a named tag other than End is its id, its name and its value, and fails exactly when its value fails |
| EnvelopeRoot.RootRead | BoxData/BoxData/BoxTag.swift:135-149 | after a right header and a non-End id, the reader reads exactly that id's value |
| EnvelopeRoot.HeaderChecked | BoxData/BoxData/BoxTag.swift:135-143 | an empty input is a read error; a wrong magic byte, a wrong version or an id above 12 traps; a read succeeds only after a right header and a known id |
| EnvelopeRoot.RootEndTraps | BoxData/BoxData/BoxTag.swift:123-125 | an End root traps on the `tagID()` it lacks, while after a right header a lone zero id reads as End and the reader takes nothing after it |
| EnvelopeRoot.EmptyCompound | BoxData/BoxData/BoxTag.swift:625-630 | an empty compound is one terminator byte at any budget, and reads back from it |
| EnvelopeRoot.EmptyList | BoxData/BoxData/BoxTag.swift:685-688 | an empty list is a zero count at any budget, and reads back as the empty list |
| EnvelopeRoot.EndChildTraps | BoxData/BoxData/BoxTag.swift:625-628 | a compound whose child is End traps on the child's `tagID()` when the budget is positive and on the budget otherwise |
| EnvelopeRoot.WrittenHasNoEndChild | BoxData/BoxData/BoxTag.swift:625-628 | a compound that writes has no End child |
| EnvelopeRoot.EndLaterElement | BoxData/BoxData/BoxTag.swift:685-694 | `[Byte(0), End]` writes as count 2, id 1 and two zeros, only the first element being asked for its id, and reads back as `[Byte(0), Byte(0)]` |
| EnvelopeRoot.NoBudgetNoChildren | BoxData/BoxData/BoxTag.swift:685-694 | with no budget, a compound with children and a non-empty list trap for the budget, except that a list whose first element is End traps on its `tagID()` first (the general case is `EnvelopeBudget.ValueBudget`) |
| EnvelopeBudget.ValueBudget | BoxData/BoxData/BoxTag.swift:274-695 | a value writes exactly when every length fits its field, no child of a compound and no first element of a list is End, and every child lies within the budget; when those hold but the budget does not, the failure is the budget's trap |
| EnvelopeBudget.NamedBudget | BoxData/BoxData/BoxTag.swift:123-132 | a named tag writes exactly when it is not End, its name fits and its value writes |
| EnvelopeBudget.FieldsBudget | BoxData/BoxData/BoxTag.swift:625-628 | the children of a list of keys write exactly when each is not End, fits and lies within one level less |
| EnvelopeBudget.ElementsBudget | BoxData/BoxData/BoxTag.swift:691-694 | the elements from i on write exactly when each fits and lies within one level less; an End element here writes its `0` |
| EnvelopeBudget.SerializeBudget | BoxData/BoxData/BoxTag.swift:115-132 | the output writes exactly when the root is not End, fits and lies within the budget, and otherwise, when it is not End and fits, fails for the budget |
| EnvelopeBudget.NestDepth | BoxData/BoxData/BoxTag.swift:153-158 | a chain of n nested compounds lies within budget d exactly when n is 0 or at most d |
| EnvelopeBudget.NestBudget | BoxData/BoxData/BoxTag.swift:153-158 | a chain of n nested compounds writes exactly when the budget is at least n; a deeper chain traps for the budget |
| EnvelopeByteArray.LongArrayIdReadsLongArray | BoxData/BoxData/BoxTag.swift:592-601 | whatever id 12 reads is a long array |
| EnvelopeByteArray.ByteArrayNeverRecovered | BoxData/BoxData/BoxTag.swift:503 | as written, no byte array reads back as itself |
| EnvelopeByteArray.ByteArrayReadsPastEnd | BoxData/BoxData/BoxTag.swift:503-512 | as written, `[5]` is written as `42 01 0C 00 00 00 01 05`, and reading those bytes back fails |
| EnvelopeByteArray.EmptyByteArrayReadsAsLongArray | BoxData/BoxData/BoxTag.swift:503-512 | as written, the empty byte array reads back as the empty long array |
| EnvelopeByteArray.ByteArrayFixed | BoxData/BoxData/BoxTag.swift:503-524 | with `tagID()` answering `.byteArray`, every byte array under 2^32 elements is written under id 7 and reads back as itself |
| EnvelopeOrder.OrderShows | BoxData/BoxData/BoxTag.swift:625-630 | two iteration orders with different first keys give different bytes for one compound, and both read back as that compound |
| EnvelopeOrder.SameTagAnyOrder | BoxData/BoxData/BoxTag.swift:632-653 | whatever the iteration order, a written compound reads back as the same tag |
| EnvelopeOrder.FirstName | BoxData/BoxData/BoxTag.swift:123-132 | a compound's bytes open with its first child's id, name length and name |

## Findings

| source | as written | input that shows it | evidently intended | confidence | as-written member | corrected member |
|---|---|---|---|---|---|---|
| BoxData/BoxData/BoxTag.swift:503 | `ByteArrayTag.tagID()` returns `.longArray`, so a byte array is written under id 12 and read back by the long-array reader | `ByteArray([5])` is written as `42 01 0C 00 00 00 01 05`; the reader wants 8 bytes for the element and fails | `tagID()` returns `.byteArray` (id 7), and the byte array reads back as itself | not executed | EnvelopeByteArray.ByteArrayNeverRecovered | EnvelopeByteArray.ByteArrayFixed |

The round-trip lemmas of the envelope codec take the revision as a
parameter. Their precondition `ValueOk(t, rev)` excludes byte arrays under
`AsWritten`, so the round trip is proved for the corrected codec. It is also
proved for every tag of the as-written codec that holds no byte array.

## Left out

- Streams, offsets and buffers: the model works on immutable byte sequences. The bytes still unread stand for the read offset, and `bytesAvailable` is their length. A partial write, a `writeError` from the underlying stream, and the `Data`/`OutputStream` plumbing are not modelled.
- DataStream.ReadString: returns the raw bytes and does not model the UTF-8 validation of `String(data:encoding:)`. That decode (and its failure) is foreign to the codec. Keys and strings are byte sequences throughout.
- Float and Double arithmetic: the values travel as opaque 32- and 64-bit patterns, which is all the codecs do with them.
- Release builds: there `decrementMaxDepth`'s `assert` is compiled out. The model keeps the debug behaviour, a trap, because release builds would recurse without a bound check.
- The `Int` arithmetic of `maxDepth - 1` is unbounded in the model. Starting from 512 it never comes near `Int.min`.
- Swift's `String <` compares by Unicode scalars. The model orders keys by their bytes, which agrees with that for UTF-8 keys. Canonical-equivalence collation (`<` on non-normalized strings) is not modelled.
- `KeyOrder.Enumerates` only asks that the iteration order list each key once. Swift's actual hash order and its per-process seeding are left open, and every property holds for every such order.
- Per-instance iteration order: `iter` maps a dictionary's contents to its keys, so two equal dictionaries in one tree (two equal children, or equal list elements) are always listed in the same order. Swift may list two equal dictionary instances differently. This matters only to the envelope codec, whose bytes follow the order; its round trips would not change, because each compound is read back from its own bytes (`EnvelopeOrder.SameTagAnyOrder`). The cached codec's bytes do not depend on the order at all (`CachedOrder.SerializeSame`).
- `Tag.useStructureCache` is a mutable global in the source. The model passes it as the parameter `cache`, the same value for a whole serialize/deserialize pair.
- `valueString`, `description`, `Equatable`/`Hashable` conformances, the `Tag` initialisers and `idFromType`: these are presentation and construction and take no part in the byte format.
- `BoxEncoder`/`BoxDecoder` (Codable bridging), the `NBT/` directory and compression: they sit outside the tag codecs. BoxEncoder is not part of this model.
- CachedBudget.ValueWrites: with the cache on, `Fits` and `DepthAtMost` are shown sufficient for a write but not necessary. A cached element's bare values spend no budget on End terminators, so an element of empty compounds can write under a budget `DepthAtMost` rejects. With the cache off the condition is exact (`CachedBudget.ValueBudget`).
- Bytes are modelled as the subset type `byte` of `int` rather than `bv8`, so that big-endian arithmetic stays in integers.
