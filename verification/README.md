# uniffi_meta: checksum encoding and metadata schema

This project models the core of `uniffi_meta`, the crate that describes the
items a UniFFI component exports. The model has two parts.

* **Checksum encoding.** Each `Checksum` impl feeds a value into a hasher as
  a fixed byte stream, and `checksum` returns the low 16 bits of the
  SipHash-1-3 of that stream. Scaffolding and bindings compare these 16-bit
  values to detect that they were generated from different interface
  definitions.
* **Metadata schema.** The records for namespaces, functions, constructors,
  methods, trait methods, records, enums, errors, objects, callback
  interfaces and custom types. Also the `Metadata` union over them, and the
  small behaviours attached to them.

Files:

* `bytes.dfy`: fixed-width integers as range-restricted `int` newtypes, and
  their little-endian byte form (`to_le_bytes`).
* `text.dfy`: well-formed UTF-8, which never contains 0xFF, and the
  byte-wise lexicographic order of strings.
* `values.dfy`: the values that implement `Checksum`, one constructor per
  impl, with their Rust types (`Ty`). `Enc(v)` is the exact byte stream the
  impl for `v` writes.
* `hashing.dfy`: the hasher as a class whose state is the bytes written so
  far. Each `Checksum` impl is a method proved to append exactly `Enc(v)`.
  `checksum` is `ComputeChecksum`.
* `prefix_free.dfy`: the encoding is prefix-free, and therefore injective,
  on each Rust type.
* `btree_maps.dfy`: `BTreeMap::insert` on the ascending entry sequence.
  Maps with equal contents hold equal sequences, so they checksum alike
  whatever order they were filled in.
* `schema.dfy`: the metadata datatypes, `UNIFFI_CONTRACT_VERSION` (22), the
  accessors, the FFI symbol-name delegations and the `From` injections.

SipHash-1-3 is not defined here. It is a parameter `sip13: seq<u8> -> u64`:
the fixed-key hash of the concatenated bytes written, so a hasher's result
depends only on that concatenation. The symbol-name builders of the
`ffi_names` module are also parameters, collected in the record `FfiNames`.

## Model

| member | source | states |
|---|---|---|
| Hashing.SipHasher13.constructor | uniffi_meta/src/lib.rs:379 | `SipHasher13::new()` starts with nothing written, under the fixed-key hash |
| Hashing.SipHasher13.Finish | uniffi_meta/src/lib.rs:381 | `finish` is the hash of exactly the bytes written so far, however they were split into writes |
| Hashing.SipHasher13.Write | uniffi_meta/src/lib.rs:44 | `Hasher::write` appends exactly the given bytes to the stream hashed so far |
| Hashing.SipHasher13.WriteU8 | uniffi_meta/src/lib.rs:38 | `Hasher::write_u8` appends exactly one byte |
| Hashing.Checksum | uniffi_meta/src/lib.rs:32-34 | `checksum` on any implementing value appends exactly `Enc(v)` to the hasher and changes nothing else |
| Hashing.ChecksumBool | uniffi_meta/src/lib.rs:36-40 | a bool appends the single byte 1 for true, 0 for false |
| Hashing.ChecksumU64 | uniffi_meta/src/lib.rs:42-46 | a u64 appends its eight little-endian bytes |
| Hashing.ChecksumI64 | uniffi_meta/src/lib.rs:48-52 | an i64 appends the eight little-endian bytes of its two's-complement pattern |
| Hashing.ChecksumBox | uniffi_meta/src/lib.rs:54-58 | a box appends exactly what its pointee appends |
| Hashing.ChecksumSlice | uniffi_meta/src/lib.rs:60-67 | a slice appends its length as eight little-endian bytes, then each element's encoding in index order (loop invariant over the elements done so far) |
| Hashing.ChecksumVec | uniffi_meta/src/lib.rs:69-73 | a Vec appends exactly what the slice of its elements appends |
| Hashing.ChecksumBTreeMap | uniffi_meta/src/lib.rs:75-83 | a map appends its length, then for each entry in iteration order the key's encoding followed by the value's |
| Hashing.ChecksumOption | uniffi_meta/src/lib.rs:85-95 | `None` appends the u64 0; `Some(x)` appends the u64 1 and then `x`'s encoding |
| Hashing.ChecksumStr | uniffi_meta/src/lib.rs:97-102 | a str appends its bytes followed by the single terminator 0xFF |
| Hashing.ChecksumString | uniffi_meta/src/lib.rs:104-108 | a String appends exactly what its `str` appends |
| Hashing.ChecksumStrRef | uniffi_meta/src/lib.rs:110-114 | a `&str` appends exactly what its `str` appends |
| Hashing.ComputeChecksum | uniffi_meta/src/lib.rs:378-382 | starting from a fresh hasher, the result is the hash of `Enc(v)` alone, reduced to its low 16 bits |
| Hashing.ChecksumDeterministic | uniffi_meta/src/lib.rs:374-382 | values with equal encodings get equal checksums |
| Hashing.MapChecksumOrderIndependent | uniffi_meta/src/lib.rs:75-83 | two maps filled in different orders that end with the same contents get the same checksum |
| Bytes.U64ToLe | uniffi_meta/src/lib.rs:42-46 | `to_le_bytes` of a u64 is eight bytes from which the value is read back |
| Bytes.I64ToLe | uniffi_meta/src/lib.rs:48-52 | `to_le_bytes` of an i64 is eight bytes whose two's-complement reading is the value |
| Bytes.LenToLe | uniffi_meta/src/lib.rs:62 | the `len() as u64` prefix is eight bytes that read back as the length whenever the length fits in 64 bits |
| Bytes.LeBytesRoundTrip | uniffi_meta/src/lib.rs:44 | reading back the n low-order little-endian bytes of a number below 256^n gives the number |
| Bytes.LeBytesInjective | uniffi_meta/src/lib.rs:44 | different in-range numbers have different n-byte little-endian forms |
| Values.OptionTag | uniffi_meta/src/lib.rs:88-90 | the Option discriminant is eight bytes reading back as 1 when present and 0 when absent |
| Values.EncItemsSnoc | uniffi_meta/src/lib.rs:63-65 | appending one element to a slice extends its element stream by that element's encoding |
| Values.EncEntriesSnoc | uniffi_meta/src/lib.rs:78-81 | appending one entry extends the entry stream by the key's encoding, then the value's |
| Text.ValidUtf8HasNoTerminator | uniffi_meta/src/lib.rs:97-102 | well-formed UTF-8 never contains the terminator byte 0xFF |
| Text.LessTotal | uniffi_meta/src/lib.rs:78 | (the standard library's `Ord` for `str`, which fixes the iteration order at line 78) the byte-wise key order puts any two distinct keys one before the other |
| Text.LessTransitive | uniffi_meta/src/lib.rs:78 | (the standard library's `Ord` for `str`, which fixes the iteration order at line 78) the key order is transitive |
| Text.LessAsymmetric | uniffi_meta/src/lib.rs:78 | (the standard library's `Ord` for `str`, which fixes the iteration order at line 78) no two keys are each below the other |
| PrefixFree.StrPrefixFree | uniffi_meta/src/lib.rs:97-102 | two terminated strings without 0xFF inside that match, followed by anything, are the same string followed by the same bytes |
| PrefixFree.EncPrefixFree | uniffi_meta/src/lib.rs:36-114 | for two values of one Rust type, if one value's bytes followed by anything equal the other's followed by anything, the values and the trailing bytes are equal |
| PrefixFree.OptionPrefixFree | uniffi_meta/src/lib.rs:85-95 | the Option encoding is prefix-free: the discriminant fixes presence, then the payloads agree |
| PrefixFree.SlicePrefixFree | uniffi_meta/src/lib.rs:60-67 | the length-prefixed slice encoding is prefix-free |
| PrefixFree.MapPrefixFree | uniffi_meta/src/lib.rs:75-83 | the length-prefixed map encoding is prefix-free |
| PrefixFree.EncInjective | uniffi_meta/src/lib.rs:36-114 | distinct values of one type never encode to the same bytes |
| PrefixFree.NoneNeverPrefixesSome | uniffi_meta/src/lib.rs:85-95 | the bytes of `None`, followed by anything, never equal the bytes of a `Some(_)`, followed by anything |
| PrefixFree.StringListsDiscriminated | uniffi_meta/src/lib.rs:60-73 | the string lists `["ab"]` and `["a", "b"]` encode differently |
| PrefixFree.ElementOrderMatters | uniffi_meta/src/lib.rs:63-65 | swapping two different elements of a Vec changes its encoding |
| BTreeMaps.Insert | uniffi_meta/src/lib.rs:78 | (the standard library's `BTreeMap::insert`, whose ordering the iteration at line 78 relies on) inserting into a map keeps the entries in strictly ascending key order and updates exactly the key inserted |
| BTreeMaps.Build | uniffi_meta/src/lib.rs:78 | (a map filled by the standard library's `BTreeMap::insert`, then iterated at line 78) filling a map pair by pair gives ascending entries whose contents are the pairs with later ones winning |
| BTreeMaps.AscendingUnique | uniffi_meta/src/lib.rs:78 | a map's iteration sequence is determined by its contents |
| BTreeMaps.InsertionOrderIrrelevant | uniffi_meta/src/lib.rs:75-83 | maps with the same final contents hold the same entries and encode to the same bytes |
| BTreeMaps.TwoInsertsCommute | uniffi_meta/src/lib.rs:78 | inserting two different keys in either order gives the same map |
| Schema.ConstructorMetadata.IsPrimary | uniffi_meta/src/lib.rs:174-176 | a constructor is primary exactly when it is named `new` |
| Schema.PrimaryConstructorsAgree | uniffi_meta/src/lib.rs:166-176 | primary constructors of one object share their symbol; with distinguishing builders, sharing a primary constructor's symbol makes a constructor primary |
| Schema.FnMetadata.FfiSymbolName | uniffi_meta/src/lib.rs:146-148 | a function's symbol is `fn_symbol_name` applied to (module path, name), in that order |
| Schema.FnMetadata.ChecksumSymbolName | uniffi_meta/src/lib.rs:150-152 | a function's checksum symbol is `fn_checksum_symbol_name` applied to (module path, name), in that order |
| Schema.ConstructorMetadata.FfiSymbolName | uniffi_meta/src/lib.rs:166-168 | a constructor's symbol is `constructor_symbol_name` applied to (module path, owner, name), in that order |
| Schema.ConstructorMetadata.ChecksumSymbolName | uniffi_meta/src/lib.rs:170-172 | a constructor's checksum symbol is `constructor_checksum_symbol_name` applied to (module path, owner, name), in that order |
| Schema.MethodMetadata.FfiSymbolName | uniffi_meta/src/lib.rs:193-195 | a method's symbol is `method_symbol_name` applied to (module path, owner, name), in that order |
| Schema.MethodMetadata.ChecksumSymbolName | uniffi_meta/src/lib.rs:197-199 | a method's checksum symbol is `method_checksum_symbol_name` applied to (module path, owner, name), in that order |
| Schema.TraitMethodMetadata.FfiSymbolName | uniffi_meta/src/lib.rs:219-221 | a trait method's symbol is `method_symbol_name` applied to (module path, trait, name), in that order |
| Schema.TraitMethodMetadata.ChecksumSymbolName | uniffi_meta/src/lib.rs:223-225 | a trait method's checksum symbol is `method_checksum_symbol_name` applied to (module path, trait, name), in that order |
| Schema.ObjectMetadata.FreeFfiSymbolName | uniffi_meta/src/lib.rs:325-327 | an object's free-function symbol is `free_fn_symbol_name` applied to (module path, name), in that order |
| Schema.SymbolKindsApart | uniffi_meta/src/lib.rs:145-226 | with builders whose ranges are apart, each declaration's symbol differs from its checksum symbol, and function, constructor, method and free-function symbols never collide |
| Schema.RangesApartAchievable | uniffi_meta/src/lib.rs:145-226 | builders whose ranges are apart exist, so the hypothesis of `SymbolKindsApart` can be met |
| Schema.FnSymbolsIdentify | uniffi_meta/src/lib.rs:145-153 | a function's symbol and checksum symbol are decided by module path and name; with distinguishing builders, by nothing less |
| Schema.ConstructorSymbolsIdentify | uniffi_meta/src/lib.rs:165-172 | a constructor's symbols are decided by module path, owner and name; with distinguishing builders, by nothing less |
| Schema.MethodSymbolsIdentify | uniffi_meta/src/lib.rs:192-200 | a method's symbols are decided by module path, owner and name; with distinguishing builders, by nothing less |
| Schema.TraitMethodNamedAsMethod | uniffi_meta/src/lib.rs:218-226 | a trait method has the symbols of a method owned by its trait, and with distinguishing builders only such a method shares them |
| Schema.FreeSymbolsIdentify | uniffi_meta/src/lib.rs:321-328 | an object's free-function symbol is decided by module path and name; with distinguishing builders, by nothing less |
| Schema.ErrorMetadata.Name | uniffi_meta/src/lib.rs:354-358 | an error's `name` is the name of the enum it wraps |
| Schema.ErrorMetadata.ModulePath | uniffi_meta/src/lib.rs:360-364 | an error's `module_path` is the module path of the enum it wraps |
| Schema.ErrorAccessorsReadWrappedEnum | uniffi_meta/src/lib.rs:353-365 | an error's `name` and `module_path` are those of the enum it wraps, whether flat or not |
| Schema.FnParamMetadata.Simple | uniffi_meta/src/lib.rs:238-248 | `simple` keeps the name and type and makes the parameter by value, required and without default |
| Schema.SimpleCharacterised | uniffi_meta/src/lib.rs:238-248 | a parameter is what `simple` builds from its name and type exactly when it is by value, required and without default |
| Schema.Radix.Base | uniffi_meta/src/lib.rs:273-277 | the discriminant is 10 exactly for `Decimal`, 8 exactly for `Octal` and 16 exactly for `Hexadecimal` |
| Schema.RadixBasesDistinct | uniffi_meta/src/lib.rs:273-277 | two radixes have the same base only if they are the same radix |
| Schema.FromNamespace | uniffi_meta/src/lib.rs:407-411 | wraps the namespace, unchanged, in the `Namespace` variant |
| Schema.FromUdlFile | uniffi_meta/src/lib.rs:413-417 | wraps the file, unchanged, in the `UdlFile` variant |
| Schema.FromFn | uniffi_meta/src/lib.rs:419-423 | wraps the function, unchanged, in the `Func` variant |
| Schema.FromConstructor | uniffi_meta/src/lib.rs:425-429 | wraps the constructor, unchanged, in the `Constructor` variant |
| Schema.FromMethod | uniffi_meta/src/lib.rs:431-435 | wraps the method, unchanged, in the `Method` variant |
| Schema.FromRecord | uniffi_meta/src/lib.rs:437-441 | wraps the record, unchanged, in the `Record` variant |
| Schema.FromEnum | uniffi_meta/src/lib.rs:443-447 | wraps the enum, unchanged, in the `Enum` variant |
| Schema.FromError | uniffi_meta/src/lib.rs:449-453 | wraps the error, unchanged, in the `Error` variant |
| Schema.FromObject | uniffi_meta/src/lib.rs:455-459 | wraps the object, unchanged, in the `Object` variant |
| Schema.FromCallbackInterface | uniffi_meta/src/lib.rs:461-465 | wraps the callback interface, unchanged, in the `CallbackInterface` variant |
| Schema.FromTraitMethod | uniffi_meta/src/lib.rs:467-471 | wraps the trait method, unchanged, in the `TraitMethod` variant |
| Schema.FromCustomType | uniffi_meta/src/lib.rs:473-477 | wraps the custom type, unchanged, in the `CustomType` variant |
| Schema.FromInjective | uniffi_meta/src/lib.rs:407-477 | every injection into `Metadata` is one-to-one |

## Left out

- `Metadata::read` and `read_metadata` (uniffi_meta/src/lib.rs:402-404): the decoder lives in the `reader` module, which is not part of this model.
- The `group` module (`group_metadata`, `MetadataGroup`) is not part of this model.
- The `ffi_names` module is not part of this model. Its builders are parameters (`FfiNames`), and their string format is not fixed. The symbol-name lemmas state that different identities get different symbols only under `Distinguishing`, which assumes each builder is injective, and that different kinds of symbol never collide only under `RangesApart`, which assumes the builders' ranges are pairwise disjoint.
- The `types` module (`Type`, `ObjectImpl`, `ExternalKind`) is not part of this model. `Type` and `ObjectImpl` are abstract types with equality.
- `#[derive(Checksum)]` on `LiteralMetadata` and `Radix` comes from `uniffi_checksum_derive`, which is not part of this model. These two types get no encoding, and `Value` has no constructor for them.
- SipHash-1-3 comes from a foreign library. It is a parameter of the model: keyed with the fixed key of `SipHasher13::new()`, it hashes the concatenated bytes written.
- `Hashing.ComputeChecksum`: `& 0xFFFF` on the u64 hash is written as the remainder modulo 2^16. The two are the same for unsigned values.
- `Values.Value`: `BTreeMap` keys are `String` only, ordered byte-wise as the `Ord` of `str` orders them. The impl is generic in the key type, and maps with other key types are not modelled.
- `Hashing.Checksum`: generic impls are modelled over the closed `Value` universe, with one constructor per impl. The prefix-freeness lemmas hold for values of one Rust type, because values of different types may share bytes.
- `Bytes.LenToLe`: `len() as u64` truncates modulo 2^64. The round trip is stated only for lengths below 2^64, which is every length on a 64-bit target.
- serde `Serialize` and the derived `Debug`, `PartialOrd` and `Ord` are library-generated, so they are not modelled.
- `UNIFFI_CONTRACT_VERSION` is the constant 22. No version-mismatch policy appears in this crate's code.
- `fixtures/type-limits/tests/bindings/test_type_limits.py` exercises generated Python bindings at run time, including floating point. There is no logic of this crate in it to model.
- Memory layout, borrowing and the generic `H: Hasher` parameter are not modelled. The only hasher is SipHash-1-3, the one `checksum` uses.
