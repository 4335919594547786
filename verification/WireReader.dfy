/** The helper's reader and decoder (ffi/spawn_wire.h, ffi/spawn_helper.c). */
module WireReader {
  import opened Basics
  import opened Errno
  import opened WireFormat
  import opened WireHeader
  import opened WireRequest

  class Reader {
    const data: Bytes
    var offset: nat

    constructor (data: Bytes, offset: nat)
      requires offset <= |data|
      ensures this.data == data && this.offset == offset && Valid()
    {
      this.data, this.offset := data, offset;
    }

    /** The reader never passes the end. */
    predicate Valid()
      reads this
    {
      offset <= |data|
    }

    function Rest(): Bytes
      requires Valid()
      reads this
    {
      data[offset..]
    }

    method ReadBytes(length: nat) returns (out: Option<Bytes>)
      requires Valid()
      modifies this
      ensures Valid()
      ensures if length > |old(Rest())| then out == None && Rest() == old(Rest())
              else out == Some(old(Rest())[..length]) && Rest() == old(Rest())[length..]
    {
      if length > |data| - offset {
        return None;
      }
      out := Some(data[offset..offset + length]);
      assert data[offset..][..length] == data[offset..offset + length];
      assert data[offset..][length..] == data[offset + length..];
      offset := offset + length;
    }

    method ReadU32() returns (out: Option<U32>)
      requires Valid()
      modifies this
      ensures Valid()
      ensures match ParseU32(old(Rest())) case Bad => out == None case Good(v, rest) => out == Some(v) && Rest() == rest
    {
      hide U32Value;
      var bytes := ReadBytes(4);
      return if bytes.None? then None else Some(U32Value(bytes.value));
    }

    method ReadU64() returns (out: Option<U64>)
      requires Valid()
      modifies this
      ensures Valid()
      ensures match ParseU64(old(Rest())) case Bad => out == None case Good(v, rest) => out == Some(v) && Rest() == rest
    {
      hide U32Value;
      var bytes := ReadBytes(8);
      if bytes.None? {
        return None;
      }
      var b := bytes.value;
      assert b[4..8] == old(Rest())[4..8] && b[..4] == old(Rest())[..4];
      return Some(U32Value(b[..4]) + WORD * U32Value(b[4..8]));
    }

    method ReadString() returns (out: Option<Bytes>)
      requires Valid()
      modifies this
      ensures Valid()
      ensures match ParseString(old(Rest())) case Bad => out == None case Good(v, rest) => out == Some(v) && Rest() == rest
    {
      hide ParseU32;
      var length := ReadU32();
      if length.None? {
        return None;
      }
      if length.value > MAX_STRING_BYTES {
        return None;
      }
      var total := length.value + 1;
      if total > |data| - offset {
        return None;
      }
      var value := data[offset..offset + length.value];
      assert Rest()[..length.value] == value && Rest()[length.value] == data[offset + length.value];
      assert Rest()[total..] == data[offset + total..];
      if data[offset + length.value] != 0 {
        return None;
      }
      if !CString(value) {
        return None;
      }
      offset := offset + total;
      return Some(value);
    }

    method DecodeVector(count: nat) returns (out: Option<seq<Bytes>>)
      requires Valid()
      modifies this
      ensures Valid()
      ensures match ParseStrings(count, old(Rest())) case Bad => out == None case Good(v, rest) => out == Some(v) && Rest() == rest
    {
      hide ParseString, ParseStrings;
      PrefixedNothing(ParseStrings(count, Rest()));
      var vector: seq<Bytes> := [];
      var i := 0;
      while i < count
        invariant Valid() && i <= count
        invariant ParseStrings(count, old(Rest())) == Prefixed(vector, ParseStrings(count - i, Rest()))
      {
        StringsFrom(count - i, Rest());
        var s := ReadString();
        if s.None? {
          return None;
        }
        PrefixedMore(vector, s.value, ParseStrings(count - i - 1, Rest()));
        vector := vector + [s.value];
        i := i + 1;
      }
      StringsFrom(0, Rest());
      PrefixedEnd(vector, Rest());
      return Some(vector);
    }

    method DecodeOption(present: bool) returns (ok: bool, out: Option<Bytes>)
      requires Valid()
      modifies this
      ensures Valid()
      ensures match ParseOption(present, old(Rest())) case Bad => !ok case Good(v, rest) => ok && out == v && Rest() == rest
    {
      hide ParseString;
      if !present {
        return true, None;
      }
      out := ReadString();
      ok := out.Some?;
    }

    method DecodeRlimit() returns (out: Option<Rlimit>)
      requires Valid()
      modifies this
      ensures Valid()
      ensures match ParseRlimit(old(Rest())) case Bad => out == None case Good(v, rest) => out == Some(v) && Rest() == rest
    {
      hide ParseU32, ParseU64;
      var resource := ReadU32();
      if resource.None? {
        return None;
      }
      var soft := ReadU64();
      if soft.None? {
        return None;
      }
      var hard := ReadU64();
      if hard.None? {
        return None;
      }
      return Some(Rlimit(AsInt32(resource.value), soft.value, hard.value));
    }

    method DecodeRlimits(count: nat) returns (out: Option<seq<Rlimit>>)
      requires Valid()
      modifies this
      ensures Valid()
      ensures match ParseRlimits(count, old(Rest())) case Bad => out == None case Good(v, rest) => out == Some(v) && Rest() == rest
    {
      hide ParseRlimit, ParseRlimits;
      PrefixedNothing(ParseRlimits(count, Rest()));
      var rlimits: seq<Rlimit> := [];
      var i := 0;
      while i < count
        invariant Valid() && i <= count
        invariant ParseRlimits(count, old(Rest())) == Prefixed(rlimits, ParseRlimits(count - i, Rest()))
      {
        RlimitsFrom(count - i, Rest());
        var r := DecodeRlimit();
        if r.None? {
          return None;
        }
        PrefixedMore(rlimits, r.value, ParseRlimits(count - i - 1, Rest()));
        rlimits := rlimits + [r.value];
        i := i + 1;
      }
      RlimitsFrom(0, Rest());
      PrefixedEnd(rlimits, Rest());
      return Some(rlimits);
    }

    method DecodeRules(count: nat) returns (out: Option<seq<Rule>>)
      requires Valid()
      modifies this
      ensures Valid()
      ensures match ParseRules(count, old(Rest())) case Bad => out == None case Good(v, rest) => out == Some(v) && Rest() == rest
    {
      hide ParseU32, ParseRules;
      PrefixedNothing(ParseRules(count, Rest()));
      var rules: seq<Rule> := [];
      var i := 0;
      while i < count
        invariant Valid() && i <= count
        invariant ParseRules(count, old(Rest())) == Prefixed(rules, ParseRules(count - i, Rest()))
      {
        RulesFrom(count - i, Rest());
        var nr := ReadU32();
        if nr.None? {
          return None;
        }
        var action := ReadU32();
        if action.None? {
          return None;
        }
        var rule := Rule(AsInt32(nr.value), action.value);
        PrefixedMore(rules, rule, ParseRules(count - i - 1, Rest()));
        rules := rules + [rule];
        i := i + 1;
      }
      RulesFrom(0, Rest());
      PrefixedEnd(rules, Rest());
      return Some(rules);
    }

    method DecodeOptions(h: Header) returns (out: Option<seq<Option<Bytes>>>)
      requires Valid()
      modifies this
      ensures Valid()
      ensures match ParseOptions(HeaderShape(h).present, old(Rest()))
              case Bad => out == None
              case Good(v, rest) => out == Some(v) && Rest() == rest
    {
      hide ParseOption, ParseOptions, Bit;
      var present := HeaderShape(h).present;
      PrefixedNothing(ParseOptions(present, Rest()));
      var options: seq<Option<Bytes>> := [];
      var i := 0;
      assert present[0..] == present;
      while i < |present|
        invariant Valid() && i <= |present| && |options| == i
        invariant ParseOptions(present, old(Rest())) == Prefixed(options, ParseOptions(present[i..], Rest()))
      {
        OptionsFrom(present[i..], Rest());
        var ok, option := DecodeOption(present[i]);
        if !ok {
          return None;
        }
        assert present[i..][1..] == present[i + 1..];
        PrefixedMore(options, option, ParseOptions(present[i + 1..], Rest()));
        options := options + [option];
        i := i + 1;
      }
      assert present[|present|..] == [];
      OptionsFrom([], Rest());
      PrefixedEnd(options, Rest());
      return Some(options);
    }
  }

  /** What was parsed so far in front of what is still to come. */
  function Prefixed<T>(front: seq<T>, more: Parsed<seq<T>>): Parsed<seq<T>> {
    if more.Bad? then Bad else Good(front + more.value, more.rest)
  }

  lemma PrefixedMore<T>(front: seq<T>, x: T, more: Parsed<seq<T>>)
    ensures Prefixed(front, Prefixed([x], more)) == Prefixed(front + [x], more)
  {
    if more.Good? {
      assert front + ([x] + more.value) == front + [x] + more.value;
    }
  }

  lemma PrefixedNothing<T>(more: Parsed<seq<T>>)
    ensures Prefixed([], more) == more
  {
    if more.Good? {
      assert [] + more.value == more.value;
    }
  }

  lemma PrefixedEnd<T>(front: seq<T>, rest: Bytes)
    ensures Prefixed(front, Good([], rest)) == Good(front, rest)
  {
    assert front + [] == front;
  }

  lemma StringsFrom(n: nat, b: Bytes)
    ensures ParseStrings(n, b) ==
            if n == 0 then Good([], b)
            else if ParseString(b).Bad? then Bad
            else Prefixed([ParseString(b).value], ParseStrings(n - 1, ParseString(b).rest))
  {
  }

  lemma RlimitsFrom(n: nat, b: Bytes)
    ensures ParseRlimits(n, b) ==
            if n == 0 then Good([], b)
            else if ParseRlimit(b).Bad? then Bad
            else Prefixed([ParseRlimit(b).value], ParseRlimits(n - 1, ParseRlimit(b).rest))
  {
  }

  lemma RulesFrom(n: nat, b: Bytes)
    ensures ParseRules(n, b) ==
            if n == 0 then Good([], b)
            else if ParseRule(b).Bad? then Bad
            else Prefixed([ParseRule(b).value], ParseRules(n - 1, ParseRule(b).rest))
  {
  }

  lemma OptionsFrom(present: seq<bool>, b: Bytes)
    ensures ParseOptions(present, b) ==
            if present == [] then Good([], b)
            else if ParseOption(present[0], b).Bad? then Bad
            else Prefixed([ParseOption(present[0], b).value], ParseOptions(present[1..], ParseOption(present[0], b).rest))
  {
  }

  /** The decoder agrees with the format on every blob. */
  method DecodeRequest(blob: Bytes) returns (r: Decoded)
    ensures r == Decode(blob)
  {
    hide ParseString, ParseStrings, ParseOptions, ParseRlimits, ParseRules, ReadHeader, HeaderOk, Bit, ToInts, AllValidPaths;
    if |blob| < HEADER_BYTES {
      return Error(EPROTO);
    }
    if |blob| > MAX_REQUEST_BYTES {
      return Error(E2BIG);
    }
    var header := ReadHeader(blob);
    if !HeaderOk(header, |blob|) {
      return Error(EPROTO);
    }
    var reader := new Reader(blob, HEADER_BYTES);
    var path := reader.ReadString();
    if path.None? {
      return Error(EPROTO);
    }
    if path.value == [] {
      return Error(EPROTO);
    }
    var argv := reader.DecodeVector(header.nArgv);
    if argv.None? {
      return Error(EPROTO);
    }
    var hasEnv := Bit(header.flags, HAS_ENVIRONMENT);
    var env := reader.DecodeVector(if hasEnv then header.nEnv else 0);
    if env.None? {
      return Error(EPROTO);
    }
    var options := reader.DecodeOptions(header);
    if options.None? {
      return Error(EPROTO);
    }
    var paths := reader.DecodeVector(header.nReadWritePaths);
    if paths.None? || !AllValidPaths(paths.value) {
      return Error(EPROTO);
    }
    var rlimits := reader.DecodeRlimits(header.nRlimits);
    if rlimits.None? {
      return Error(EPROTO);
    }
    var rules := reader.DecodeRules(header.nSeccompRules);
    if rules.None? {
      return Error(EPROTO);
    }
    if reader.offset != |blob| {
      return Error(EPROTO);
    }
    var payload := Payload(path.value, argv.value, env.value, options.value, paths.value, rlimits.value, rules.value);
    return Ok(RequestFrom(header, payload));
  }
}
