/**
 The read-only IOCTL cache (vci_proxy/cache_ioctl.py), the client's handler in front of the device, and
 what the driver makes of an IOCTL's input (vci_proxy/j2534_driver.py).
 */
module IoctlCache {
  import opened Common
  import opened Bytes
  import opened Protocol

  const GET_CONFIG: U32 := 0x01
  const SET_CONFIG: U32 := 0x02
  const READ_VBATT: U32 := 0x03
  const READ_PROG_VOLTAGE: U32 := 0x09
  const CACHEABLE_IDS: set<U32> := {GET_CONFIG, READ_VBATT, READ_PROG_VOLTAGE}

  /** What a cache entry is filed under; the input bytes are not part of it. */
  datatype Key = Key(channelId: U32, ioctlId: U32)

  datatype Entry = Entry(at: real, returnCode: U32, output: Payload)

  datatype Cache = Cache(enabled: bool, ttl: real, entries: map<Key, Entry>) {
    predicate Serves(k: Key, now: real) {
      enabled && k.ioctlId in CACHEABLE_IDS && k in entries && now - entries[k].at <= ttl
    }

    function Record(k: Key, returnCode: U32, output: Payload, now: real): Cache {
      if enabled && k.ioctlId in CACHEABLE_IDS && returnCode == 0
      then this.(entries := entries[k := Entry(now, returnCode, output)])
      else this
    }

    function InvalidateChannel(ch: U32): Cache {
      this.(entries := map k | k in entries && k.channelId != ch :: entries[k])
    }

    function Invalidate(): Cache {
      this.(entries := map[])
    }
  }

  class ReadOnlyIoctlCache {
    const enabled: bool
    const ttl: real
    var entries: map<Key, Entry>
    var hits: nat
    var misses: nat

    function View(): Cache
      reads this
    {
      Cache(enabled, ttl, entries)
    }

    constructor (enabled: bool, ttl: real)
      ensures View() == Cache(enabled, ttl, map[])
    {
      this.enabled, this.ttl := enabled, ttl;
      entries, hits, misses := map[], 0, 0;
    }

    method TryGetCached(k: Key, now: real) returns (r: Option<(U32, Payload)>)
      modifies this`hits, this`misses
      ensures r.Some? <==> View().Serves(k, now)
      ensures r.Some? ==> r.value == (entries[k].returnCode, entries[k].output)
      ensures hits == old(hits) + (if r.Some? then 1 else 0)
      ensures misses == old(misses) + (if enabled && k.ioctlId in CACHEABLE_IDS && r.None? then 1 else 0)
    {
      if !enabled || k.ioctlId !in CACHEABLE_IDS {
        return None;
      }
      if k !in entries || now - entries[k].at > ttl {
        misses := misses + 1;
        return None;
      }
      hits := hits + 1;
      r := Some((entries[k].returnCode, entries[k].output));
    }

    method RecordResult(k: Key, returnCode: U32, output: Payload, now: real)
      modifies this`entries
      ensures View() == old(View()).Record(k, returnCode, output, now)
    {
      if !enabled || k.ioctlId !in CACHEABLE_IDS || returnCode != 0 {
        return;
      }
      entries := entries[k := Entry(now, returnCode, output)];
    }

    method InvalidateChannel(ch: U32)
      modifies this`entries
      ensures View() == old(View()).InvalidateChannel(ch)
    {
      var todo := set k | k in entries && k.channelId == ch;
      while todo != {}
        invariant todo <= entries.Keys
        invariant forall k <- todo :: k.channelId == ch
        invariant forall k <- entries :: k in old(entries) && entries[k] == old(entries)[k]
        invariant forall k <- old(entries) :: k.channelId != ch || k in todo <==> k in entries
      {
        var k :| k in todo;
        entries := entries - {k};
        todo := todo - {k};
      }
    }

    method Invalidate()
      modifies this`entries
      ensures View() == old(View()).Invalidate()
    {
      entries := map[];
    }
  }

  /**
   What the client answers and remembers, when the device would say `returnCode` and `output`: it looks
   its cache up when the request is `asked`, and records once the driver has `returned`.
   */
  function Answering(c: Cache, k: Key, returnCode: U32, output: Payload, asked: real, returned: real):
    (Cache, U32, Payload)
  {
    if c.Serves(k, asked) then (c, c.entries[k].returnCode, c.entries[k].output)
    else (c.Record(k, returnCode, output, returned), returnCode, output)
  }

  /** _handle_ioctl of the reverse client; `device` is what the driver call returns, and when. */
  method HandleIoctl(cache: ReadOnlyIoctlCache, k: Key, device: (U32, Payload), asked: real, returned: real)
    returns (returnCode: U32, output: Payload)
    modifies cache
    ensures (cache.View(), returnCode, output) == Answering(old(cache.View()), k, device.0, device.1, asked, returned)
  {
    var cached := cache.TryGetCached(k, asked);
    if cached.Some? {
      return cached.value.0, cached.value.1;
    }
    returnCode, output := device.0, device.1;
    cache.RecordResult(k, returnCode, output, returned);
  }

  /** A miss is still a miss when the driver returns, so the whole call may be placed at the instant it ends. */
  lemma OneInstantSuffices(c: Cache, k: Key, returnCode: U32, output: Payload, asked: real, returned: real)
    requires asked <= returned
    ensures var end := if c.Serves(k, asked) then asked else returned;
            Answering(c, k, returnCode, output, asked, returned) == Answering(c, k, returnCode, output, end, end)
  {
  }

  // ---------------------------------------------------------------- what the driver is asked

  /** What an input comes to: nothing at all, the parameters it names, or a list too short for its count. */
  datatype Question = Plain | Params(words: seq<U32>) | Malformed

  /** The first `n` parameters of a list, with their values if the driver wants those. */
  function ParamWords(data: ByteString, n: nat, withValues: bool): seq<U32>
    requires 8 * n <= |data|
    decreases n
  {
    if n == 0 then []
    else
      [Unpack32(data[..4])] + (if withValues then [Unpack32(data[4..8])] else [])
      + ParamWords(data[8..], n - 1, withValues)
  }

  /** GET_CONFIG looks at the parameters of its input, SET_CONFIG also at their values, the others at nothing. */
  function QuestionOf(ioctlId: U32, input: Payload): Question {
    var data := PayloadBytes(input);
    if ioctlId !in {GET_CONFIG, SET_CONFIG} || data == [] then Plain
    else if |data| < 4 then Malformed
    else
      var n := Unpack32(data[..4]);
      if |data[4..]| < 8 * n then Malformed else Params(ParamWords(data[4..], n, ioctlId == SET_CONFIG))
  }

  lemma {:induction false} ParamWordsIgnoreTail(data: ByteString, tail: ByteString, n: nat, withValues: bool)
    requires 8 * n <= |data|
    ensures ParamWords(data + tail, n, withValues) == ParamWords(data, n, withValues)
    decreases n
  {
    if n > 0 {
      ParamWordsIgnoreTail(data[8..], tail, n - 1, withValues);
      assert (data + tail)[8..] == data[8..] + tail;
      assert (data + tail)[..4] == data[..4] && (data + tail)[4..8] == data[4..8];
    }
  }

  /** Absent and empty input ask the same, and so do inputs that differ only behind the announced parameters. */
  lemma QuestionIgnores(ioctlId: U32, input: Payload, data: ByteString, tail: ByteString)
    requires |data| >= 4 && 8 * Unpack32(data[..4]) <= |data[4..]| && |data + tail| < U32_LIMIT
    ensures QuestionOf(ioctlId, Normalize(input)) == QuestionOf(ioctlId, input)
    ensures QuestionOf(ioctlId, Some(data + tail)) == QuestionOf(ioctlId, Some(data))
  {
    assert (data + tail)[..4] == data[..4] && (data + tail)[4..] == data[4..] + tail;
    ParamWordsIgnoreTail(data[4..], tail, Unpack32(data[..4]), ioctlId == SET_CONFIG);
  }
}
