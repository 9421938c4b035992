/** The host's `localStorage` as the trainer uses it for JSON documents: a map from entry names to
    stored texts, each either a JSON document or text that `JSON.parse` rejects. */
module Storage {
  import opened Wrappers
  import opened Json

  datatype Cell = Doc(value: Json) | Garbled

  type Store = map<string, Cell>

  /** The host refused a write (quota exceeded, storage disabled): `setItem` throws. */
  datatype StorageError = WriteRefused

  /** `JSON.parse(localStorage.getItem(name))`. A missing entry is `null`, which parses to `null`;
      `None` means the parse throws. */
  function ParseItem(store: Store, name: string): (r: Option<Json>)
    ensures name !in store ==> r == Some(JNull)
    ensures name in store ==> (r.None? <==> store[name].Garbled?)
    ensures name in store && store[name].Doc? ==> r == Some(store[name].value)
  {
    if name !in store then Some(JNull)
    else match store[name]
      case Doc(v) => Some(v)
      case Garbled => None
  }

  /** `localStorage.setItem(name, JSON.stringify(v))`; `writable` says whether the host accepts it. */
  function SetItem(store: Store, name: string, v: Json, writable: bool): (r: Result<Store, StorageError>)
    ensures r.Ok? <==> writable
    ensures r.Ok? ==> name in r.value && r.value[name] == Doc(v)
    ensures r.Ok? ==> forall other :: other != name ==> ParseItem(r.value, other) == ParseItem(store, other)
  {
    if writable then Ok(store[name := Doc(v)]) else Err(WriteRefused)
  }
}
