/**
 StartFilter deduplication (vci_proxy/cache_filter_dedup.py): three maps updated in place in front
 of the device's live filters.  The key of a request is its body: the source's SHA-256 digest is
 taken to be injective.
 */
module FilterCache {
  import opened Common
  import opened Bytes
  import opened Protocol

  datatype Entry = Entry(filterId: U32, responseBody: ByteString)

  datatype Filters = Filters(enabled: bool, filters: map<ByteString, Entry>,
                             channelFilters: map<U32, set<ByteString>>, idToKey: map<U32, ByteString>) {
    /** record_result for a body whose channel could be read. */
    function Record(body: ByteString, filterId: U32, returnCode: U32, responseBody: ByteString): Filters
      requires |body| >= 4
    {
      if !enabled || returnCode != 0 then this
      else
        var ch := ChannelOf(body);
        this.(filters := filters[body := Entry(filterId, responseBody)],
              idToKey := idToKey[filterId := body],
              channelFilters := channelFilters[ch := KeysOf(ch) + {body}])
    }

    function KeysOf(ch: U32): set<ByteString> {
      if ch in channelFilters then channelFilters[ch] else {}
    }

    function OnStop(filterId: U32): Filters {
      if filterId !in idToKey then this
      else
        var key := idToKey[filterId];
        this.(idToKey := idToKey - {filterId}, filters := filters - {key},
              channelFilters := map ch | ch in channelFilters :: channelFilters[ch] - {key})
    }

    function InvalidateChannel(ch: U32): Filters {
      var keys := KeysOf(ch);
      this.(channelFilters := channelFilters - {ch}, filters := filters - keys,
            idToKey := idToKey - set k | k in keys && k in filters :: filters[k].filterId)
    }

    function Clear(): Filters {
      this.(filters := map[], channelFilters := map[], idToKey := map[])
    }

    /** The three maps describe one relation: `idToKey` inverts `filters`, the channel sets partition its keys. */
    ghost predicate Consistent() {
      && (forall k <- filters :: |k| >= 4)
      && (forall k <- filters :: filters[k].filterId in idToKey && idToKey[filters[k].filterId] == k)
      && (forall id <- idToKey :: idToKey[id] in filters && filters[idToKey[id]].filterId == id)
      && (forall ch, k :: k in KeysOf(ch) <==> k in filters && ChannelOf(k) == ch)
    }
  }

  /** The channel a StartFilter body names in its first four bytes. */
  function ChannelOf(body: ByteString): U32 {
    if |body| >= 4 then Unpack32(body[..4]) else 0
  }

  class FilterDeduplicationCache {
    const enabled: bool
    var filters: map<ByteString, Entry>
    var channelFilters: map<U32, set<ByteString>>
    var idToKey: map<U32, ByteString>
    var hits: nat
    var misses: nat

    function View(): Filters
      reads this
    {
      Filters(enabled, filters, channelFilters, idToKey)
    }

    constructor (enabled: bool)
      ensures View() == Filters(enabled, map[], map[], map[]) && hits == misses == 0
    {
      this.enabled := enabled;
      filters, channelFilters, idToKey, hits, misses := map[], map[], map[], 0, 0;
    }

    /** The frame that answers the request without asking the device, if there is one and its length can be packed. */
    method TryDedup(body: ByteString, sequence: U32) returns (r: Result<Option<ByteString>>)
      modifies this`hits, this`misses
      ensures r == if enabled && body in filters
                   then Framed(START_FILTER_RSP, sequence, filters[body].responseBody) else Ok(None)
      ensures hits == old(hits) + (if enabled && body in filters then 1 else 0)
      ensures misses == old(misses) + (if enabled && body !in filters then 1 else 0)
    {
      if !enabled {
        return Ok(None);
      }
      if body !in filters {
        misses := misses + 1;
        return Ok(None);
      }
      hits := hits + 1;
      var cached := filters[body].responseBody;
      if HEADER_SIZE + |cached| >= U32_LIMIT {
        return Err(StructError);
      }
      r := Ok(Some(HeaderBytes(HEADER_SIZE + |cached|, START_FILTER_RSP, sequence) + cached));
    }

    /** Fails, before changing anything, on a body too short to name a channel. */
    method RecordResult(body: ByteString, filterId: U32, returnCode: U32, responseBody: ByteString)
      returns (r: Result<()>)
      modifies this`filters, this`idToKey, this`channelFilters
      ensures r.Err? <==> enabled && returnCode == 0 && |body| < 4
      ensures r.Err? ==> r.error == StructError && View() == old(View())
      ensures |body| >= 4 ==> View() == old(View()).Record(body, filterId, returnCode, responseBody)
      ensures |body| < 4 ==> View() == old(View())
    {
      if !enabled || returnCode != 0 {
        return Ok(());
      }
      if |body| < 4 {
        return Err(StructError);
      }
      var ch := Unpack32(body[..4]);
      filters := filters[body := Entry(filterId, responseBody)];
      idToKey := idToKey[filterId := body];
      if ch !in channelFilters {
        channelFilters := channelFilters[ch := {}];
      }
      channelFilters := channelFilters[ch := channelFilters[ch] + {body}];
      r := Ok(());
    }

    method OnStopFilter(filterId: U32)
      modifies this`filters, this`idToKey, this`channelFilters
      ensures View() == old(View()).OnStop(filterId)
    {
      if filterId !in idToKey {
        return;
      }
      var key := idToKey[filterId];
      idToKey := idToKey - {filterId};
      filters := filters - {key};
      var todo := channelFilters.Keys;
      while todo != {}
        invariant filters == old(filters) - {key} && idToKey == old(idToKey) - {filterId}
        invariant todo <= channelFilters.Keys == old(channelFilters).Keys
        invariant forall ch <- channelFilters ::
                    channelFilters[ch] == if ch in todo then old(channelFilters)[ch] else old(channelFilters)[ch] - {key}
      {
        var ch :| ch in todo;
        channelFilters := channelFilters[ch := channelFilters[ch] - {key}];
        todo := todo - {ch};
      }
      assert channelFilters == old(View()).OnStop(filterId).channelFilters;
    }

    method InvalidateChannel(ch: U32)
      modifies this`filters, this`idToKey, this`channelFilters
      ensures View() == old(View()).InvalidateChannel(ch)
    {
      ghost var was := View();
      var keys := if ch in channelFilters then channelFilters[ch] else {};
      channelFilters := channelFilters - {ch};
      var todo := keys;
      while todo != {}
        invariant todo <= keys && channelFilters == was.channelFilters - {ch}
        invariant filters == was.filters - (keys - todo)
        invariant idToKey == was.idToKey - set k | k in keys - todo && k in was.filters :: was.filters[k].filterId
      {
        var key :| key in todo;
        ghost var done := keys - todo;
        todo := todo - {key};
        assert keys - todo == done + {key};
        if key in filters {
          var id := filters[key].filterId;
          assert (set k | k in done + {key} && k in was.filters :: was.filters[k].filterId) ==
                 (set k | k in done && k in was.filters :: was.filters[k].filterId) + {id};
          idToKey := idToKey - {id};
          filters := filters - {key};
        } else {
          assert (set k | k in done + {key} && k in was.filters :: was.filters[k].filterId) ==
                 (set k | k in done && k in was.filters :: was.filters[k].filterId);
        }
      }
      assert keys - todo == keys;
    }

    method Clear()
      modifies this`filters, this`idToKey, this`channelFilters
      ensures View() == old(View()).Clear()
    {
      filters, channelFilters, idToKey := map[], map[], map[];
    }
  }

  // ---------------------------------------------------------------- consistency of the three maps

  lemma OnStopKeepsConsistent(c: Filters, filterId: U32)
    requires c.Consistent()
    ensures c.OnStop(filterId).Consistent()
    ensures forall k :: k in c.OnStop(filterId).filters <==> k in c.filters && c.filters[k].filterId != filterId
  {
    var c' := c.OnStop(filterId);
    if filterId in c.idToKey {
      var key := c.idToKey[filterId];
      assert forall ch :: c'.KeysOf(ch) == c.KeysOf(ch) - {key};
    }
  }

  lemma InvalidateKeepsConsistent(c: Filters, ch: U32)
    requires c.Consistent()
    ensures c.InvalidateChannel(ch).Consistent()
    ensures forall k :: k in c.InvalidateChannel(ch).filters <==> k in c.filters && ChannelOf(k) != ch
  {
    var c' := c.InvalidateChannel(ch);
    assert forall x :: c'.KeysOf(x) == if x == ch then {} else c.KeysOf(x);
    forall id <- c'.idToKey
      ensures c'.idToKey[id] in c'.filters && c'.filters[c'.idToKey[id]].filterId == id
    {
      assert c.idToKey[id] !in c.KeysOf(ch);
    }
  }

  /** Recording keeps the maps consistent exactly when neither the key nor the id is taken by something else. */
  lemma RecordKeepsConsistentIff(c: Filters, body: ByteString, filterId: U32, responseBody: ByteString)
    requires c.Consistent() && c.enabled && |body| >= 4
    ensures c.Record(body, filterId, 0, responseBody).Consistent() <==>
            && (body in c.filters ==> c.filters[body].filterId == filterId)
            && (filterId in c.idToKey ==> c.idToKey[filterId] == body)
  {
    var c' := c.Record(body, filterId, 0, responseBody);
    assert forall x :: c'.KeysOf(x) == if x == ChannelOf(body) then c.KeysOf(x) + {body} else c.KeysOf(x);
    if body in c.filters && c.filters[body].filterId != filterId {
      var other := c.filters[body].filterId;
      assert other in c'.idToKey && c'.idToKey[other] == body;
    }
    if filterId in c.idToKey && c.idToKey[filterId] != body {
      var other := c.idToKey[filterId];
      assert other in c'.filters && c'.filters[other].filterId == filterId;
    }
  }
}
