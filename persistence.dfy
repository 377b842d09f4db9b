/** The browser-local key/value store (`Storage` in js/app.js) and the
    pure view of its contents that the rest of the model reasons about.
    Documents are abstract: the store is generic in the document type D,
    and serialization is taken to be exact for every document the
    application writes. */
module Persistence {

  /** What the medium holds under a key: a document that parses back, or
      text that does not (an empty or corrupted value written outside the
      application). */
  datatype Entry<D> = Readable(doc: D) | Unreadable

  /** The contents of the medium. */
  type Contents<D> = map<string, Entry<D>>

  /** `Storage.get`: the stored document when the key is present and its
      text parses, the caller's default in every other case. */
  function Read<D>(m: Contents<D>, key: string, default: D): (d: D)
    ensures key in m && m[key].Readable? ==> d == m[key].doc
    ensures key !in m ==> d == default
    ensures key in m && m[key].Unreadable? ==> d == default
  {
    if key in m && m[key].Readable? then m[key].doc else default
  }

  /** The key holds the same thing (or is absent) in both contents. */
  ghost predicate SameAt<D>(m: Contents<D>, m': Contents<D>, key: string)
  {
    (key in m <==> key in m') && (key in m ==> m[key] == m'[key])
  }

  /** Every key outside `keys` is untouched. */
  ghost predicate UnchangedExcept<D>(m: Contents<D>, m': Contents<D>, keys: set<string>)
  {
    forall k :: k !in keys ==> SameAt(m, m', k)
  }

  /** Proof helper: two steps that each leave all but some keys alone
      leave all but the union of those keys alone. */
  lemma UnchangedExceptCompose<D>(m1: Contents<D>, m2: Contents<D>, m3: Contents<D>, a: set<string>, b: set<string>)
    requires UnchangedExcept(m1, m2, a) && UnchangedExcept(m2, m3, b)
    ensures UnchangedExcept(m1, m3, a + b)
  {
    forall k | k !in a + b ensures SameAt(m1, m3, k) {
      assert SameAt(m1, m2, k) && SameAt(m2, m3, k);
    }
  }

  /** A write of `d` under `key` either took effect or was refused by the
      medium and left the key as it was. */
  ghost predicate WrittenOrKept<D>(m: Contents<D>, m': Contents<D>, key: string, d: D)
  {
    SameAt(m, m', key) || (key in m' && m'[key] == Readable(d))
  }

  /** Round trip: a document written under a key is what a read of that key
      returns, whatever default the reader supplies. */
  lemma ReadAfterWrite<D>(m: Contents<D>, key: string, d: D, default: D)
    ensures Read(m[key := Readable(d)], key, default) == d
  {
  }

  /** A write under one key does not change what any other key reads. */
  lemma WriteFrame<D>(m: Contents<D>, key: string, d: D, other: string, default: D)
    requires other != key
    ensures Read(m[key := Readable(d)], other, default) == Read(m, other, default)
  {
  }

  /** After a removal the key reads as the default; other keys read as before. */
  lemma ReadAfterRemove<D>(m: Contents<D>, key: string, other: string, default: D)
    ensures Read(m - {key}, key, default) == default
    ensures other != key ==> Read(m - {key}, other, default) == Read(m, other, default)
  {
  }

  /** Corrupted text is never surfaced: it reads exactly as an absent key. */
  lemma UnreadableReadsAsDefault<D>(m: Contents<D>, key: string, default: D)
    ensures Read(m[key := Unreadable], key, default) == default
    ensures Read(m[key := Unreadable], key, default) == Read(m - {key}, key, default)
  {
  }

  /** The store itself. The medium may refuse a write (quota exceeded);
      which writes it refuses is not modelled, so `Set` chooses its
      outcome nondeterministically. */
  class Storage<D> {
    var entries: Contents<D>

    constructor (initial: Contents<D>)
      ensures entries == initial
    {
      entries := initial;
    }

    /** `get(key, default)`: never fails, never changes the store. */
    method Get(key: string, default: D) returns (d: D)
      ensures key in entries && entries[key].Readable? ==> d == entries[key].doc
      ensures !(key in entries && entries[key].Readable?) ==> d == default
      ensures d == Read(entries, key, default)
    {
      if key in entries && entries[key].Readable? {
        d := entries[key].doc;
      } else {
        d := default;
      }
    }

    /** `set(key, value)`: overwrites the key and reports success, or
      reports failure and leaves the store as it was. */
    method Set(key: string, value: D) returns (ok: bool)
      modifies this
      ensures ok ==> entries == old(entries)[key := Readable(value)]
      ensures !ok ==> entries == old(entries)
      ensures WrittenOrKept(old(entries), entries, key, value)
      ensures UnchangedExcept(old(entries), entries, {key})
    {
      ok := *;
      if ok {
        entries := entries[key := Readable(value)];
      }
    }

    /** `remove(key)`: deletes the key; removing an absent key does nothing. */
    method Remove(key: string)
      modifies this
      ensures entries == old(entries) - {key}
      ensures key !in entries
      ensures UnchangedExcept(old(entries), entries, {key})
    {
      entries := entries - {key};
    }
  }

  /** Client of the store: a write that succeeded is read back, the other
      key is untouched, and a removal makes the key read as the default. */
  method WriteReadRemove<D>(s: Storage<D>, key: string, other: string, d: D, default: D)
    returns (ok: bool, first: D, afterRemove: D)
    requires key != other
    modifies s
    ensures ok ==> first == d
    ensures !ok ==> first == Read(old(s.entries), key, default)
    ensures afterRemove == default
    ensures SameAt(old(s.entries), s.entries, other)
  {
    ok := s.Set(key, d);
    first := s.Get(key, default);
    s.Remove(key);
    afterRemove := s.Get(key, default);
  }
}
