/** The manager's writer (ffi/spawn_wire.h, ffi/spawn.c): one code path that first
    measures a request and then fills a buffer of exactly that size. */
module WireWriter {
  import opened Basics
  import opened WireFormat
  import opened WireHeader
  import opened WireRequest

  const SIZE_MAX: nat := 0xffff_ffff_ffff_ffff

  /** What has been written and the room there is, or failure. */
  datatype State = Failed | Writing(bytes: Bytes, limit: nat)

  function Put(w: State, bytes: Bytes): State {
    if w.Failed? || |w.bytes| + |bytes| > w.limit then Failed else Writing(w.bytes + bytes, w.limit)
  }

  lemma PutTwo(w: State, a: Bytes, b: Bytes)
    ensures Put(Put(w, a), b) == Put(w, a + b)
  {
    if w.Writing? {
      assert w.bytes + a + b == w.bytes + (a + b);
    }
  }

  lemma PutFour(w: State, a: Bytes, b: Bytes, c: Bytes, d: Bytes)
    ensures Put(Put(Put(Put(w, a), b), c), d) == Put(w, a + (b + (c + d)))
  {
    hide Put;
    PutTwo(Put(Put(w, a), b), c, d);
    PutTwo(Put(w, a), b, c + d);
    PutTwo(w, a, b + (c + d));
  }

  /** Without a buffer the writer only measures. */
  class Writer {
    const data: array?<Byte>
    var offset: nat
    var failed: bool
    ghost var written: Bytes

    constructor (data: array?<Byte>)
      ensures this.data == data && offset == 0 && !failed && written == [] && Valid()
    {
      this.data := data;
      offset, failed, written := 0, false, [];
    }

    ghost predicate Valid()
      reads this, data
    {
      && |written| == offset <= SIZE_MAX
      && (data != null ==> offset <= data.Length && data[..offset] == written)
    }

    ghost function View(): State
      reads this
    {
      if failed then Failed
      else Writing(written, if data != null && data.Length < SIZE_MAX then data.Length else SIZE_MAX)
    }

    method WriteBytes(bytes: Bytes)
      requires Valid()
      modifies this, data
      ensures Valid() && View() == Put(old(View()), bytes)
    {
      if failed {
        return;
      }
      if |bytes| > SIZE_MAX - offset {
        failed := true;
        return;
      }
      if data != null {
        if |bytes| > data.Length - offset {
          failed := true;
          return;
        }
        ghost var before := data[..offset];
        forall i | 0 <= i < |bytes| {
          data[offset + i] := bytes[i];
        }
        assert data[..offset] == before;
        assert data[offset..offset + |bytes|] == bytes;
        assert data[..offset + |bytes|] == data[..offset] + data[offset..offset + |bytes|];
      }
      offset := offset + |bytes|;
      written := written + bytes;
    }

    /** A string that is too long fails the writer. */
    method WriteString(s: Bytes)
      requires Valid()
      modifies this, data
      ensures Valid() && View() == if |s| > MAX_STRING_BYTES then Failed else Put(old(View()), StringBytes(s))
    {
      hide U32Bytes, Put;
      if |s| > MAX_STRING_BYTES {
        failed := true;
        return;
      }
      WriteBytes(U32Bytes(|s|));
      WriteBytes(s);
      WriteBytes([0]);
      PutTwo(Put(old(View()), U32Bytes(|s|)), s, [0]);
      PutTwo(old(View()), U32Bytes(|s|), s + [0]);
    }

    method WriteStrings(ss: seq<Bytes>)
      requires Valid() && AllStorable(ss)
      modifies this, data
      ensures Valid() && View() == Put(old(View()), StringsBytes(ss))
    {
      hide StringBytes, StringsBytes, CString, Put;
      StringsNone();
      PutNothing(View());
      var i := 0;
      while i < |ss|
        invariant i <= |ss| && Valid() && View() == Put(old(View()), StringsBytes(ss[..i]))
      {
        StringsMore(ss, i);
        PutTwo(old(View()), StringsBytes(ss[..i]), StringBytes(ss[i]));
        WriteString(ss[i]);
        i := i + 1;
      }
      assert ss[..|ss|] == ss;
    }

    method WriteOption(o: Option<Bytes>)
      requires Valid() && OptionCString(o)
      modifies this, data
      ensures Valid() && View() == if Long(o) then Failed else Put(old(View()), OptionBytes(o))
    {
      hide StringBytes, CString;
      if o.Some? {
        WriteString(o.value);
      } else {
        PutNothing(View());
      }
    }

    method WriteRlimits(rs: seq<Rlimit>)
      requires Valid()
      modifies this, data
      ensures Valid() && View() == Put(old(View()), RlimitsBytes(rs))
    {
      hide U32Bytes, U64Bytes, RlimitsBytes, Put;
      RlimitsNone();
      PutNothing(View());
      var i := 0;
      while i < |rs|
        invariant i <= |rs| && Valid() && View() == Put(old(View()), RlimitsBytes(rs[..i]))
      {
        RlimitsMore(rs, i);
        ghost var before := View();
        PutTwo(old(View()), RlimitsBytes(rs[..i]), RlimitBytes(rs[i]));
        WriteBytes(U32Bytes(AsU32(rs[i].resource)));
        WriteBytes(U64Bytes(rs[i].soft));
        WriteBytes(U64Bytes(rs[i].hard));
        PutTwo(Put(before, U32Bytes(AsU32(rs[i].resource))), U64Bytes(rs[i].soft), U64Bytes(rs[i].hard));
        PutTwo(before, U32Bytes(AsU32(rs[i].resource)), U64Bytes(rs[i].soft) + U64Bytes(rs[i].hard));
        i := i + 1;
      }
      assert rs[..|rs|] == rs;
    }

    method WriteRules(rs: seq<Rule>)
      requires Valid()
      modifies this, data
      ensures Valid() && View() == Put(old(View()), RulesBytes(rs))
    {
      hide U32Bytes, RulesBytes, Put;
      RulesNone();
      PutNothing(View());
      var i := 0;
      while i < |rs|
        invariant i <= |rs| && Valid() && View() == Put(old(View()), RulesBytes(rs[..i]))
      {
        RulesMore(rs, i);
        ghost var before := View();
        PutTwo(old(View()), RulesBytes(rs[..i]), RuleBytes(rs[i]));
        WriteBytes(U32Bytes(AsU32(rs[i].nr)));
        WriteBytes(U32Bytes(rs[i].action));
        PutTwo(before, U32Bytes(AsU32(rs[i].nr)), U32Bytes(rs[i].action));
        i := i + 1;
      }
      assert rs[..|rs|] == rs;
    }

    method WriteOptions(cwd: Option<Bytes>, cgroup: Option<Bytes>, selinux: Option<Bytes>, apparmor: Option<Bytes>,
                        notify: Option<Bytes>)
      requires Valid() && OptionsStorable([cwd, cgroup, selinux, apparmor]) && OptionCString(notify)
      modifies this, data
      ensures Valid()
      ensures if Long(notify) then View() == Failed
              else OptionsStorable([cwd, cgroup, selinux, apparmor, notify])
                   && View() == Put(old(View()), OptionsBytes([cwd, cgroup, selinux, apparmor, notify]))
    {
      hide OptionBytes, OptionsBytes, CString, Put, OptionsStorable;
      FiveOptions(cwd, cgroup, selinux, apparmor, notify);
      WriteOption(cwd);
      WriteOption(cgroup);
      WriteOption(selinux);
      WriteOption(apparmor);
      WriteOption(notify);
      if !Long(notify) {
        PutFive(old(View()), cwd, cgroup, selinux, apparmor, notify);
      }
    }

    /** Everything after the environment. */
    method WriteTail(q: Payload)
      requires Valid() && |q.options| == 5 && OptionsStorable(q.options[..4]) && OptionCString(q.options[4])
      requires AllStorable(q.paths) && Storable(q.path) && AllStorable(q.argv) && AllStorable(q.env)
      modifies this, data
      ensures Valid()
      ensures if Long(q.options[4]) then View() == Failed else PayloadStorable(q) && View() == Put(old(View()), TailBytes(q))
    {
      hide OptionsBytes, StringsBytes, RlimitsBytes, RulesBytes, CString, OptionsStorable, AllStorable, Put;
      var o := q.options;
      assert o == [o[0], o[1], o[2], o[3], o[4]];
      assert o[..4] == [o[0], o[1], o[2], o[3]];
      WriteOptions(o[0], o[1], o[2], o[3], o[4]);
      WriteStrings(q.paths);
      WriteRlimits(q.rlimits);
      WriteRules(q.rules);
      if Long(o[4]) {
        FailureStays(StringsBytes(q.paths));
        FailureStays(RlimitsBytes(q.rlimits));
        FailureStays(RulesBytes(q.rules));
      } else {
        PutFour(old(View()), OptionsBytes(o), StringsBytes(q.paths), RlimitsBytes(q.rlimits), RulesBytes(q.rules));
      }
    }

    method WritePayload(q: Payload)
      requires Valid() && |q.options| == 5 && OptionsStorable(q.options[..4]) && OptionCString(q.options[4])
      requires AllStorable(q.paths) && Storable(q.path) && AllStorable(q.argv) && AllStorable(q.env)
      modifies this, data
      ensures Valid()
      ensures if Long(q.options[4]) then View() == Failed else PayloadStorable(q) && View() == Put(old(View()), PayloadBytes(q))
    {
      hide StringBytes, StringsBytes, TailBytes, CString, OptionsStorable, AllStorable, Put;
      WriteString(q.path);
      WriteStrings(q.argv);
      WriteStrings(q.env);
      WriteTail(q);
      if !Long(q.options[4]) {
        PutFour(old(View()), StringBytes(q.path), StringsBytes(q.argv), StringsBytes(q.env), TailBytes(q));
      }
    }

    /** The same bytes whether measuring or filling; only an overlong notify socket
        name, which nothing has checked before, or lack of room makes it fail. */
    method WriteRequest(p: Params, notify: Option<Bytes>, total: U32)
      requires Valid() && ValidParams(p) && CStrings(p) && OptionCString(notify)
      modifies this, data
      ensures Valid()
      ensures if Long(notify) then View() == Failed
              else PayloadStorable(PayloadOf(p, notify)) && View() == Put(old(View()), Encode(p, notify, total))
    {
      hide HeaderBytes, PayloadBytes, TooBig, BadDescriptor, CStrings, HeaderOf, PayloadStorable, OptionsStorable,
           Storable, AllStorable, OptionCString, Long, Put;
      NearlyStorable(p, notify);
      var header := HeaderBytes(HeaderOf(p, notify, total), [0, 0, 0, 0]);
      WriteBytes(header);
      WritePayload(PayloadOf(p, notify));
      if !Long(notify) {
        PutTwo(old(View()), header, PayloadBytes(PayloadOf(p, notify)));
      }
    }
  }

  lemma PutNothing(w: State)
    ensures w.Writing? && |w.bytes| <= w.limit ==> Put(w, []) == w
    ensures w.Failed? ==> Put(w, []) == w
  {
  }

  lemma FailureStays(bytes: Bytes)
    ensures Put(Failed, bytes) == Failed
  {
  }

  lemma NearlyStorable(p: Params, notify: Option<Bytes>)
    requires ValidParams(p) && CStrings(p) && OptionCString(notify)
    ensures
      var q := PayloadOf(p, notify);
      && |q.options| == 5 && OptionsStorable(q.options[..4]) && q.options[4] == notify
      && Storable(q.path) && AllStorable(q.argv) && AllStorable(q.env) && AllStorable(q.paths)
  {
    PayloadIsStorable(p, None);
    var q, q0 := PayloadOf(p, notify), PayloadOf(p, None);
    assert q.options[..4] == q0.options[..4];
    hide CString;
    assert forall i :: 0 <= i < 4 ==> q.options[..4][i] == q0.options[i];
  }

  lemma FiveOptions(a: Option<Bytes>, b: Option<Bytes>, c: Option<Bytes>, d: Option<Bytes>, e: Option<Bytes>)
    requires OptionsStorable([a, b, c, d]) && OptionCString(e)
    ensures !Long(a) && !Long(b) && !Long(c) && !Long(d)
    ensures OptionCString(a) && OptionCString(b) && OptionCString(c) && OptionCString(d)
    ensures !Long(e) ==> OptionsStorable([a, b, c, d, e])
  {
    hide CString;
    var o := [a, b, c, d];
    assert o[0] == a && o[1] == b && o[2] == c && o[3] == d;
  }

  predicate StorableOption(o: Option<Bytes>) {
    o.Some? ==> Storable(o.value)
  }

  lemma OptionsCons(o: Option<Bytes>, os: seq<Option<Bytes>>)
    requires StorableOption(o) && OptionsStorable(os)
    ensures OptionsStorable([o] + os) && OptionsBytes([o] + os) == OptionBytes(o) + OptionsBytes(os)
  {
    hide OptionBytes, Storable;
    assert ([o] + os)[1..] == os;
  }

  /** One more in front. */
  lemma ConsBytes(o: Option<Bytes>, os: seq<Option<Bytes>>, tail: Bytes, all: seq<Option<Bytes>>)
    requires StorableOption(o) && OptionsStorable(os) && OptionsBytes(os) == tail && all == [o] + os
    ensures OptionsStorable(all) && OptionsBytes(all) == OptionBytes(o) + tail
  {
    hide OptionBytes, Storable, OptionsStorable, OptionsBytes;
    OptionsCons(o, os);
  }

  lemma LastBytes(o: Option<Bytes>)
    requires StorableOption(o)
    ensures OptionsStorable([o]) && OptionsBytes([o]) == OptionBytes(o)
  {
    hide OptionBytes, Storable;
    assert [o][1..] == [];
  }

  lemma FiveBytes(a: Option<Bytes>, b: Option<Bytes>, c: Option<Bytes>, d: Option<Bytes>, e: Option<Bytes>)
    requires StorableOption(a) && StorableOption(b) && StorableOption(c) && StorableOption(d) && StorableOption(e)
    ensures OptionsStorable([a, b, c, d, e])
    ensures OptionsBytes([a, b, c, d, e])
            == OptionBytes(a) + (OptionBytes(b) + (OptionBytes(c) + (OptionBytes(d) + OptionBytes(e))))
  {
    hide OptionBytes, OptionsBytes, OptionsStorable, Storable;
    LastBytes(e);
    ConsBytes(d, [e], OptionBytes(e), [d, e]);
    ConsBytes(c, [d, e], OptionBytes(d) + OptionBytes(e), [c, d, e]);
    ConsBytes(b, [c, d, e], OptionBytes(c) + (OptionBytes(d) + OptionBytes(e)), [b, c, d, e]);
    ConsBytes(a, [b, c, d, e], OptionBytes(b) + (OptionBytes(c) + (OptionBytes(d) + OptionBytes(e))), [a, b, c, d, e]);
  }

  lemma PutFive(w: State, a: Option<Bytes>, b: Option<Bytes>, c: Option<Bytes>, d: Option<Bytes>, e: Option<Bytes>)
    requires StorableOption(a) && StorableOption(b) && StorableOption(c) && StorableOption(d) && StorableOption(e)
    ensures OptionsStorable([a, b, c, d, e])
    ensures Put(Put(Put(Put(Put(w, OptionBytes(a)), OptionBytes(b)), OptionBytes(c)), OptionBytes(d)), OptionBytes(e))
            == Put(w, OptionsBytes([a, b, c, d, e]))
  {
    hide OptionBytes, OptionsBytes, Storable, Put, OptionsStorable;
    FiveBytes(a, b, c, d, e);
    PutFour(Put(w, OptionBytes(a)), OptionBytes(b), OptionBytes(c), OptionBytes(d), OptionBytes(e));
    PutTwo(w, OptionBytes(a), OptionBytes(b) + (OptionBytes(c) + (OptionBytes(d) + OptionBytes(e))));
  }

  lemma StringsNone()
    ensures StringsBytes([]) == []
  {
  }

  lemma RlimitsNone()
    ensures RlimitsBytes([]) == []
  {
  }

  lemma RulesNone()
    ensures RulesBytes([]) == []
  {
  }

  lemma {:induction false} StringsConcat(a: seq<Bytes>, s: Bytes)
    requires AllStorable(a) && Storable(s)
    ensures StringsBytes(a + [s]) == StringsBytes(a) + StringBytes(s)
  {
    hide StringBytes, CString;
    if a == [] {
      assert a + [s] == [s] && StringsBytes([s][1..]) == [];
    } else {
      StringsConcat(a[1..], s);
      assert (a + [s])[1..] == a[1..] + [s];
    }
  }

  lemma StringsMore(ss: seq<Bytes>, i: nat)
    requires AllStorable(ss) && i < |ss|
    ensures StringsBytes(ss[..i + 1]) == StringsBytes(ss[..i]) + StringBytes(ss[i])
  {
    assert ss[..i + 1] == ss[..i] + [ss[i]];
    StringsConcat(ss[..i], ss[i]);
  }

  lemma {:induction false} RlimitsConcat(a: seq<Rlimit>, r: Rlimit)
    ensures RlimitsBytes(a + [r]) == RlimitsBytes(a) + RlimitBytes(r)
  {
    hide RlimitBytes;
    if a == [] {
      assert a + [r] == [r] && RlimitsBytes([r][1..]) == [];
    } else {
      RlimitsConcat(a[1..], r);
      assert (a + [r])[1..] == a[1..] + [r];
    }
  }

  lemma RlimitsMore(rs: seq<Rlimit>, i: nat)
    requires i < |rs|
    ensures RlimitsBytes(rs[..i + 1]) == RlimitsBytes(rs[..i]) + RlimitBytes(rs[i])
  {
    assert rs[..i + 1] == rs[..i] + [rs[i]];
    RlimitsConcat(rs[..i], rs[i]);
  }

  lemma {:induction false} RulesConcat(a: seq<Rule>, r: Rule)
    ensures RulesBytes(a + [r]) == RulesBytes(a) + RuleBytes(r)
  {
    hide RuleBytes;
    if a == [] {
      assert a + [r] == [r] && RulesBytes([r][1..]) == [];
    } else {
      RulesConcat(a[1..], r);
      assert (a + [r])[1..] == a[1..] + [r];
    }
  }

  lemma RulesMore(rs: seq<Rule>, i: nat)
    requires i < |rs|
    ensures RulesBytes(rs[..i + 1]) == RulesBytes(rs[..i]) + RuleBytes(rs[i])
  {
    assert rs[..i + 1] == rs[..i] + [rs[i]];
    RulesConcat(rs[..i], rs[i]);
  }
}
