/** Values shared by the modules of this project. */
module Common {
  datatype Option<+T> = None | Some(value: T)

  ghost predicate Distinct<T>(s: seq<T>) {
    forall i, j | 0 <= i < j < |s| :: s[i] != s[j]
  }
}

/** Tables whose entries have an owner, and deletion from them. */
module OwnedTables {
  /** The keys a session owns. */
  function KeysOf<K>(owners: map<K, string>, sid: string): set<K> {
    set k | k in owners && owners[k] == sid
  }

  function OwnerOf<K>(owners: map<K, string>, k: K): string { if k in owners then owners[k] else "" }

  function Del<V>(m: map<string, V>, k: string): map<string, V> { m - {k} }

  function Cut<K, V>(m: map<K, V>, ks: set<K>): map<K, V> { m - ks }

  /** The loop that deletes the entries of one owner from a table of owners and the table of values beside it. */
  method DropOwned<K(==), V>(owners: map<K, string>, values: map<K, V>, sid: string)
    returns (owners': map<K, string>, values': map<K, V>)
    ensures owners' == Cut(owners, KeysOf(owners, sid)) && values' == Cut(values, KeysOf(owners, sid))
    ensures forall k :: k in owners' <==> k in owners && owners[k] != sid
    ensures forall k :: k in values' <==> k in values && !(k in owners && owners[k] == sid)
  {
    owners', values' := owners, values;
    var todo := owners.Keys;
    while todo != {}
      invariant todo <= owners.Keys
      invariant owners' == owners - (KeysOf(owners, sid) - todo)
      invariant values' == values - (KeysOf(owners, sid) - todo)
      decreases todo
    {
      var k :| k in todo;
      if owners[k] == sid {
        owners', values' := owners' - {k}, values' - {k};
        assert KeysOf(owners, sid) - (todo - {k}) == (KeysOf(owners, sid) - todo) + {k};
      } else {
        assert KeysOf(owners, sid) - (todo - {k}) == KeysOf(owners, sid) - todo;
      }
      todo := todo - {k};
    }
    assert KeysOf(owners, sid) - {} == KeysOf(owners, sid);
  }
}
