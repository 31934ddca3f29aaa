/** The file that keeps peer names: internal/wgmeta/store.go. Its names are stored under the text of their keys. */
module Store {
  import opened Wrappers
  import opened WgTypes
  import opened Base64
  import opened Conf

  /** `encoded` holds the non-empty names under the texts of their keys, and nothing else. */
  ghost predicate Encodes(encoded: map<string, string>, names: map<Key, string>) {
    && (forall k <- names :: names[k] != "" ==> KeyText(k) in encoded && encoded[KeyText(k)] == names[k])
    && (forall t <- encoded :: exists k :: k in names && names[k] != "" && t == KeyText(k))
  }

  /** Every text is a key, and every name is one of those stored under a text of its key. */
  ghost predicate Decodes(names: map<Key, string>, encoded: map<string, string>) {
    && (forall t <- encoded :: ReadKey(t).Some? && ReadKey(t).value in names)
    && (forall k <- names :: exists t :: t in encoded && ReadKey(t) == Some(k) && names[k] == encoded[t])
  }

  function NonEmpty(names: map<Key, string>): map<Key, string> {
    map k | k in names && names[k] != "" :: names[k]
  }

  method EncodeNames(names: map<Key, string>) returns (encoded: map<string, string>)
    ensures Encodes(encoded, names)
  {
    hide KeyText;
    encoded := map[];
    var left := names.Keys;
    while left != {}
      invariant left <= names.Keys
      invariant forall k <- names :: k !in left && names[k] != "" ==>
                  KeyText(k) in encoded && encoded[KeyText(k)] == names[k]
      invariant forall t <- encoded :: exists k :: k in names && names[k] != "" && t == KeyText(k)
      decreases left
    {
      var key :| key in left;
      left := left - {key};
      if names[key] == "" {
        continue;
      }
      forall k | k in names && KeyText(k) == KeyText(key)
        ensures k == key
      {
        KeyTextInjective(k, key);
      }
      encoded := encoded[KeyText(key) := names[key]];
    }
  }

  method DecodeNames(encoded: map<string, string>) returns (names: Option<map<Key, string>>)
    ensures names.Some? <==> forall t <- encoded :: ReadKey(t).Some?
    ensures names.Some? ==> Decodes(names.value, encoded)
  {
    hide ReadKey;
    var done: map<Key, string> := map[];
    var left := encoded.Keys;
    while left != {}
      invariant left <= encoded.Keys
      invariant forall t <- encoded :: t !in left ==> ReadKey(t).Some? && ReadKey(t).value in done
      invariant forall k <- done :: exists t :: t in encoded && ReadKey(t) == Some(k) && done[k] == encoded[t]
      decreases left
    {
      var value :| value in left;
      left := left - {value};
      var key := ReadKey(value);
      if key.None? {
        return None;
      }
      done := done[key.value := encoded[value]];
    }
    names := Some(done);
  }

  /** The key under whose text a name is stored. */
  lemma {:induction false} EncodedFrom(encoded: map<string, string>, names: map<Key, string>, t: string)
    returns (k: Key)
    requires Encodes(encoded, names) && t in encoded
    ensures k in names && names[k] != "" && t == KeyText(k) && ReadKey(t) == Some(k) && encoded[t] == names[k]
  {
    hide KeyText, ReadKey;
    k :| k in names && names[k] != "" && t == KeyText(k);
    KeyTextReads(k);
  }

  lemma {:induction false} DecodedFrom(again: map<Key, string>, encoded: map<string, string>, k: Key)
    returns (t: string)
    requires Decodes(again, encoded) && k in again
    ensures t in encoded && ReadKey(t) == Some(k) && again[k] == encoded[t]
  {
    hide ReadKey;
    t :| t in encoded && ReadKey(t) == Some(k) && again[k] == encoded[t];
  }

  lemma {:induction false} KeptIsRead(names: map<Key, string>, encoded: map<string, string>, again: map<Key, string>,
      k: Key)
    requires Encodes(encoded, names) && Decodes(again, encoded) && k in names && names[k] != ""
    ensures k in again
  {
    hide KeyText, ReadKey;
    KeyTextReads(k);
    assert KeyText(k) in encoded;
  }

  /** What is stored and read back are the names that are not empty. */
  lemma {:induction false} NamesRoundTrip(names: map<Key, string>, encoded: map<string, string>, 
      again: map<Key, string>)
    requires Encodes(encoded, names) && Decodes(again, encoded)
    ensures again == NonEmpty(names)
  {
    hide KeyText, ReadKey, Encodes, Decodes;
    forall k | k in NonEmpty(names)
      ensures k in again
    {
      KeptIsRead(names, encoded, again, k);
    }
    forall k | k in again
      ensures k in NonEmpty(names) && again[k] == names[k]
    {
      var t := DecodedFrom(again, encoded, k);
      var j := EncodedFrom(encoded, names, t);
    }
  }

  lemma {:induction false} EncodingReadable(encoded: map<string, string>, names: map<Key, string>)
    requires Encodes(encoded, names)
    ensures forall t <- encoded :: ReadKey(t).Some?
  {
    hide KeyText, ReadKey;
    forall t | t in encoded
      ensures ReadKey(t).Some?
    {
      var k := EncodedFrom(encoded, names, t);
    }
  }

  /** Which names the file holds. */
  ghost predicate Holds(file: map<string, string>, names: map<Key, string>) {
    Decodes(names, file) && forall other :: Decodes(other, file) ==> other == names
  }

  /** The file of one interface; locks make each call one step. */
  class NameFile {
    var file: map<string, string>

    constructor ()
      ensures file == map[]
    {
      file := map[];
    }

    method Names() returns (names: Option<map<Key, string>>)
      ensures names.Some? <==> forall t <- file :: ReadKey(t).Some?
      ensures names.Some? ==> Decodes(names.value, file)
    {
      names := DecodeNames(file);
    }

    /** One update through the callback of Apply; a file that cannot be read or written stays as it is. */
    method Update(cfg: Config, exists_: set<Key>, writes: bool) returns (ok: bool, ghost was: map<Key, string>)
      modifies this
      ensures ok == (writes && forall t <- old(file) :: ReadKey(t).Some?)
      ensures !ok ==> file == old(file)
      ensures ok ==> Decodes(was, old(file)) && Holds(file, NonEmpty(NamesAfter(was, cfg, exists_)))
    {
      hide ReadKey, Decodes, Encodes, NamesAfter, NonEmpty;
      was := map[];
      var names := DecodeNames(file);
      if names.None? {
        return false, was;
      }
      was := names.value;
      var updated := UpdateNames(names.value, cfg, exists_);
      var encoded := EncodeNames(updated);
      if !writes {
        return false, was;
      }
      file := encoded;
      ok := true;
      HoldsEncoded(encoded, updated);
    }
  }

  /** The non-empty names are one decoding of their encoding. */
  lemma {:induction false} NonEmptyDecodes(encoded: map<string, string>, names: map<Key, string>)
    requires Encodes(encoded, names)
    ensures Decodes(NonEmpty(names), encoded)
  {
    hide KeyText, ReadKey;
    EncodingReadable(encoded, names);
    var kept := NonEmpty(names);
    forall t | t in encoded
      ensures ReadKey(t).Some? && ReadKey(t).value in kept
    {
      var k := EncodedFrom(encoded, names, t);
    }
    forall k | k in kept
      ensures exists t :: t in encoded && ReadKey(t) == Some(k) && kept[k] == encoded[t]
    {
      KeyTextReads(k);
      assert KeyText(k) in encoded;
    }
  }

  lemma {:induction false} HoldsEncoded(encoded: map<string, string>, names: map<Key, string>)
    requires Encodes(encoded, names)
    ensures Holds(encoded, NonEmpty(names))
  {
    hide KeyText, ReadKey;
    EncodingReadable(encoded, names);
    var kept := NonEmpty(names);
    NonEmptyDecodes(encoded, names);
    forall other | Decodes(other, encoded)
      ensures other == kept
    {
      NamesRoundTrip(names, encoded, other);
    }
  }
}
