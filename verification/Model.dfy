/** Values shared by every component: keys, payloads, change events and the
    versions kept for a key. Go byte slices and strings are both modelled as
    sequences of characters; `Nil` is the nil slice, which differs from `Bytes("")`. */
module Model {
  datatype Option<+T> = None | Some(value: T)

  type Key = string
  datatype Value = Nil | Bytes(bytes: string)

  /** `Unset` is the zero value of the event type, found only in unused log slots. */
  datatype EventType = Unset | Put | Delete

  datatype Event = Event(kind: EventType, key: Key, value: Value, rev: nat)

  const NO_EVENT := Event(Unset, "", Nil, 0)

  /** One version of a key: an element of a version list, and also what a
      snapshot or a pinned read returns. */
  datatype Version = Version(rev: nat, value: Value, deleted: bool)

  /** An empty watch key matches every event. */
  predicate Match(ev: Event, key: Key) {
    key == "" || ev.key == key
  }

  function VersionOf(ev: Event): Version {
    Version(ev.rev, ev.value, ev.kind == Delete)
  }

  /** The items of a set, each once, in some order: what iterating over a Go map yields. */
  predicate IsOrderOf<T(==)>(order: seq<T>, items: set<T>) {
    && (forall i, j :: 0 <= i < j < |order| ==> order[i] != order[j])
    && (forall i :: 0 <= i < |order| ==> order[i] in items) && (forall x :: x in items ==> x in order)
  }
}
