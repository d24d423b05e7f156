/**
 * The `BufferLike` converters of the shared buffer helpers.
 *
 * Memory is a set of backing stores, each an identity and its bytes; an
 * `ArrayBuffer` or `SharedArrayBuffer` is a whole store, and a `Buffer`,
 * `Uint8Array` or `DataView` is a window (offset and length) onto one. Two
 * values alias exactly when they name the same store. A copy gets a new
 * store, whose identity is a parameter (`newId`), since allocation is not
 * modelled.
 */
module Buffer {
  import opened Wrappers

  newtype byte = x: int | 0 <= x < 256

  /** A backing store: its identity, whether it is shared memory, and its bytes. */
  datatype Store = Store(id: nat, shared: bool, bytes: seq<byte>)

  /** A `BufferLike` value, or anything else (`Other`). */
  datatype Data =
    | ArrayBuf(store: Store)                                // an ArrayBuffer or a SharedArrayBuffer
    | BufferView(store: Store, offset: nat, length: nat)    // a Node Buffer
    | U8View(store: Store, offset: nat, length: nat)        // a plain Uint8Array
    | DataView(store: Store, offset: nat, length: nat)
    | Other

  datatype TypeError = UnsupportedBufferLike

  /** JavaScript never builds a view reaching past its store. */
  predicate Valid(d: Data) {
    (d.BufferView? || d.U8View? || d.DataView?) ==> d.offset + d.length <= |d.store.bytes|
  }

  predicate IsView(d: Data) {
    d.BufferView? || d.U8View? || d.DataView?
  }

  /** `isBuffer`. */
  predicate IsBuffer(d: Data) {
    d.BufferView?
  }

  /** `isUint8Array`: a Buffer is a Uint8Array too. */
  predicate IsUint8Array(d: Data) {
    d.BufferView? || d.U8View?
  }

  /** `isArrayBuffer`. */
  predicate IsArrayBuffer(d: Data) {
    d.ArrayBuf? && !d.store.shared
  }

  /** `isSharedArrayBuffer`. */
  predicate IsSharedArrayBuffer(d: Data) {
    d.ArrayBuf? && d.store.shared
  }

  /** `isDataView`. */
  predicate IsDataView(d: Data) {
    d.DataView?
  }

  /** What every converter accepts. */
  predicate Supported(d: Data) {
    IsBuffer(d) || IsUint8Array(d) || IsArrayBuffer(d) || IsSharedArrayBuffer(d) || IsDataView(d)
  }

  /** The bytes a value shows. */
  function Contents(d: Data): seq<byte>
    requires Valid(d)
  {
    match d
    case ArrayBuf(s) => s.bytes
    case BufferView(s, off, len) => s.bytes[off..off + len]
    case U8View(s, off, len) => s.bytes[off..off + len]
    case DataView(s, off, len) => s.bytes[off..off + len]
    case Other => []
  }

  /** `toUint8Array(data)`. */
  function ToUint8Array(d: Data): (r: Result<Data, TypeError>)
    requires Valid(d)
    ensures r.Ok? <==> Supported(d)
    ensures r.Ok? ==> r.value.U8View? && Valid(r.value) && Contents(r.value) == Contents(d)
    ensures r.Ok? ==> r.value.store == d.store
    ensures r.Ok? && IsView(d) ==> r.value.offset == d.offset && r.value.length == d.length
    ensures d.U8View? ==> r == Ok(d)
  {
    if IsBuffer(d) then Ok(U8View(d.store, d.offset, d.length))
    else if IsUint8Array(d) then Ok(d)
    else if IsArrayBuffer(d) || IsSharedArrayBuffer(d) then
      assert d.store.bytes[0..|d.store.bytes|] == d.store.bytes;
      Ok(U8View(d.store, 0, |d.store.bytes|))
    else if IsDataView(d) then Ok(U8View(d.store, d.offset, d.length))
    else Err(UnsupportedBufferLike)
  }

  /** `toArrayBuffer(data)`: whole stores as they are, views copied into a store of the same kind. */
  function ToArrayBuffer(d: Data, newId: nat): (r: Result<Data, TypeError>)
    requires Valid(d)
    ensures r.Ok? <==> Supported(d)
    ensures r.Ok? ==> r.value.ArrayBuf? && Contents(r.value) == Contents(d)
    ensures d.ArrayBuf? ==> r == Ok(d)
    ensures IsView(d) ==> r.Ok? && r.value.store.id == newId && r.value.store.shared == d.store.shared
  {
    if IsArrayBuffer(d) then Ok(d)
    else if IsSharedArrayBuffer(d) then Ok(d)
    else if IsBuffer(d) || IsUint8Array(d) || IsDataView(d) then
      Ok(ArrayBuf(Store(newId, d.store.shared, d.store.bytes[d.offset..d.offset + d.length])))
    else Err(UnsupportedBufferLike)
  }

  /** `Buffer.from(bytes)`: a new Buffer over a copy. */
  function NewBuffer(bytes: seq<byte>, newId: nat): (b: Data)
    ensures b.BufferView? && Valid(b) && Contents(b) == bytes && b.store.id == newId
  {
    assert bytes[0..|bytes|] == bytes;
    BufferView(Store(newId, false, bytes), 0, |bytes|)
  }

  /** `toBuffer(data)`: a Buffer as it is, anything else copied into a new Buffer. */
  function ToBuffer(d: Data, newId: nat): (r: Result<Data, TypeError>)
    requires Valid(d)
    ensures r.Ok? <==> Supported(d)
    ensures r.Ok? ==> r.value.BufferView? && Valid(r.value) && Contents(r.value) == Contents(d)
    ensures IsBuffer(d) ==> r == Ok(d)
    ensures r.Ok? && !IsBuffer(d) ==> r.value.store.id == newId
  {
    if IsBuffer(d) then Ok(d)
    else if IsArrayBuffer(d) || IsSharedArrayBuffer(d) then Ok(NewBuffer(Contents(ToUint8Array(d).value), newId))
    else if IsUint8Array(d) then Ok(NewBuffer(Contents(d), newId))
    else if IsDataView(d) then Ok(NewBuffer(Contents(ToUint8Array(d).value), newId))
    else Err(UnsupportedBufferLike)
  }

  /** `getByteLength(data)`: the `byteLength` of the value. */
  function ByteLength(d: Data): (r: Result<nat, TypeError>)
    requires Valid(d)
    ensures r.Ok? <==> Supported(d)
    ensures r.Ok? ==> r.value == |Contents(d)|
  {
    if IsBuffer(d) || IsUint8Array(d) then Ok(d.length)
    else if IsArrayBuffer(d) || IsSharedArrayBuffer(d) then Ok(|d.store.bytes|)
    else if IsDataView(d) then Ok(d.length)
    else Err(UnsupportedBufferLike)
  }

  /** Every `BufferLike` kind is accepted; only a value of another kind is a `TypeError`. */
  lemma SupportedExactly(d: Data)
    requires Valid(d)
    ensures Supported(d) <==> !d.Other?
    ensures d.Other? ==> ToUint8Array(d).Err? && ToArrayBuffer(d, 0).Err? && ToBuffer(d, 0).Err? && ByteLength(d).Err?
  {
  }

  /**
   * The `isBuffer` test comes before `isUint8Array`, which a Buffer also
   * passes: `toUint8Array` gives a Buffer a new plain view of the same bytes,
   * while `toBuffer` hands it back unchanged.
   */
  lemma BufferGetsPlainView(d: Data, newId: nat)
    requires Valid(d) && IsBuffer(d)
    ensures IsUint8Array(d)
    ensures ToUint8Array(d).Ok? && ToUint8Array(d).value != d
    ensures ToUint8Array(d).value == U8View(d.store, d.offset, d.length)
    ensures ToBuffer(d, newId) == Ok(d)
  {
  }

  /** Converting to any of the three shapes keeps the bytes and the byte length. */
  lemma ConversionsKeepBytes(d: Data, newId: nat)
    requires Valid(d) && Supported(d)
    ensures Contents(ToUint8Array(d).value) == Contents(d)
    ensures Contents(ToArrayBuffer(d, newId).value) == Contents(d)
    ensures Contents(ToBuffer(d, newId).value) == Contents(d)
    ensures ByteLength(ToUint8Array(d).value) == ByteLength(d)
    ensures ByteLength(ToArrayBuffer(d, newId).value) == ByteLength(d)
    ensures ByteLength(ToBuffer(d, newId).value) == ByteLength(d)
  {
  }

  /** `toArrayBuffer` then `toUint8Array` gives back the bytes of the original value. */
  lemma ArrayBufferRoundTrip(d: Data, newId: nat)
    requires Valid(d) && Supported(d)
    ensures ToArrayBuffer(d, newId).Ok?
    ensures Valid(ToArrayBuffer(d, newId).value)
    ensures ToUint8Array(ToArrayBuffer(d, newId).value).Ok?
    ensures Contents(ToUint8Array(ToArrayBuffer(d, newId).value).value) == Contents(d)
  {
  }

  /** A view made by `toUint8Array` shares its store; a copy made by `toArrayBuffer` from a view does not. */
  lemma AliasingOfConversions(d: Data, newId: nat)
    requires Valid(d) && IsView(d) && newId != d.store.id
    ensures ToUint8Array(d).value.store.id == d.store.id
    ensures ToArrayBuffer(d, newId).value.store.id != d.store.id
  {
  }

  /** `toArrayBuffer` of a view over shared memory is shared memory too, since `slice` keeps the kind. */
  lemma SharedSliceStaysShared(d: Data, newId: nat)
    requires Valid(d) && IsView(d) && d.store.shared
    ensures IsSharedArrayBuffer(ToArrayBuffer(d, newId).value)
    ensures !IsArrayBuffer(ToArrayBuffer(d, newId).value)
  {
  }
}
