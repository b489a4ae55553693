/** Call arguments: split into a positional node list and a keyword list, joined
    again by whoever serves the call. */
module CallArgs {
  import opened Bits
  import opened Bytes
  import opened Values
  import opened Errors
  import opened NodeReaders
  import opened Wire

  datatype Arg = Positional(v: Value) | Keyword(name: seq<byte>, v: Value) | NilArg

  datatype NamedValue = NamedValue(name: seq<byte>, v: Value)

  /** The value an argument carries; a nil argument is None. */
  function Carried(a: Arg): Value { if a.NilArg? then NoneValue else a.v }

  function Positionals(args: seq<Arg>): seq<Value> {
    if args == [] then []
    else
      var last := args[|args| - 1];
      Positionals(args[..|args| - 1]) + (if last.Keyword? then [] else [Carried(last)])
  }

  function Keywords(args: seq<Arg>): seq<NamedValue> {
    if args == [] then []
    else
      var last := args[|args| - 1];
      Keywords(args[..|args| - 1]) + (if last.Keyword? then [NamedValue(last.name, last.v)] else [])
  }

  /** What one argument contributes. */
  lemma OneArg(a: Arg)
    ensures a.Positional? ==> Positionals([a]) == [a.v] && Keywords([a]) == []
    ensures a.Keyword? ==> Positionals([a]) == [] && Keywords([a]) == [NamedValue(a.name, a.v)]
    ensures a == NilArg ==> Positionals([a]) == [NoneValue] && Keywords([a]) == []
  {
    assert [a][..0] == [];
    assert Positionals([]) == [] && Keywords([]) == [];
  }

  /** Both lists keep the order of the arguments: those of a list are those of its parts,
      one after the other. */
  lemma {:induction false} ArgsInOrder(a: seq<Arg>, b: seq<Arg>)
    ensures Positionals(a + b) == Positionals(a) + Positionals(b)
    ensures Keywords(a + b) == Keywords(a) + Keywords(b)
    decreases |b|
  {
    if b == [] {
      assert a + b == a;
    } else {
      var front, last := b[..|b| - 1], b[|b| - 1];
      assert (a + b)[..|a + b| - 1] == a + front && (a + b)[|a + b| - 1] == last;
      ArgsInOrder(a, front);
    }
  }

  type Kwargs = map<seq<byte>, Value>

  // ---- on the wire ----------------------------------------------------------

  function KeywordBytes(k: NamedValue): seq<byte> { LenPrefixed(4, k.name) + NodeBytes(Sent(k.v)) }

  function KeywordsBytes(ks: seq<NamedValue>): seq<byte> {
    if ks == [] then [] else KeywordBytes(ks[0]) + KeywordsBytes(ks[1..])
  }

  function KwargsBytes(ks: seq<NamedValue>): seq<byte> { LE(4, |ks| % TWO_32) + KeywordsBytes(ks) }

  lemma {:induction false} KeywordsAppend(ks: seq<NamedValue>, k: NamedValue)
    ensures KeywordsBytes(ks + [k]) == KeywordsBytes(ks) + KeywordBytes(k)
  {
    if ks == [] {
      assert (ks + [k])[1..] == [];
    } else {
      assert (ks + [k])[1..] == ks[1..] + [k];
      KeywordsAppend(ks[1..], k);
      Associative(KeywordBytes(ks[0]), KeywordsBytes(ks[1..]), KeywordBytes(k));
    }
  }

  // ---- the encoder ----------------------------------------------------------

  method SplitArgs(args: seq<Arg>) returns (positional: seq<Value>, keywords: seq<NamedValue>)
    ensures positional == Positionals(args) && keywords == Keywords(args)
  {
    positional, keywords := [], [];
    for i := 0 to |args|
      invariant positional == Positionals(args[..i]) && keywords == Keywords(args[..i])
    {
      assert args[..i + 1][..i] == args[..i];
      match args[i] {
        case Keyword(name, v) => keywords := keywords + [NamedValue(name, v)];
        case Positional(v) => positional := positional + [v];
        case NilArg => positional := positional + [NoneValue];
      }
    }
    assert args[..|args|] == args;
  }

  method AppendKeyword(p: nat, kw: seq<byte>, k: NamedValue) returns (r: Result<seq<byte>>)
    ensures r.Ok? <==> Encodable(p, k.v)
    ensures r == if Encodable(p, k.v) then Ok(kw + KeywordBytes(k)) else EncodeNode(p, k.v)
  {
    Associative(kw, LenPrefixed(4, k.name), NodeBytes(Sent(k.v)));
    r := EncodeValue(p, kw + LenPrefixed(4, k.name), k.v);
  }

  /** kw holds the count and the first i keywords, all of which may be sent. */
  ghost predicate KeywordsDone(p: nat, ks: seq<NamedValue>, i: nat, kw: seq<byte>) {
    && i <= |ks| && kw == LE(4, |ks| % TWO_32) + KeywordsBytes(ks[..i])
    && forall j :: 0 <= j < i ==> Encodable(p, ks[j].v)
  }

  lemma KeywordStep(p: nat, ks: seq<NamedValue>, i: nat, kw: seq<byte>)
    requires i < |ks| && KeywordsDone(p, ks, i, kw) && Encodable(p, ks[i].v)
    ensures KeywordsDone(p, ks, i + 1, kw + KeywordBytes(ks[i]))
  {
    assert ks[..i + 1] == ks[..i] + [ks[i]];
    KeywordsAppend(ks[..i], ks[i]);
    Associative(LE(4, |ks| % TWO_32), KeywordsBytes(ks[..i]), KeywordBytes(ks[i]));
  }

  method EncodeKeywords(p: nat, keywords: seq<NamedValue>) returns (r: Result<seq<byte>>)
    ensures r.Ok? <==> forall i :: 0 <= i < |keywords| ==> Encodable(p, keywords[i].v)
    ensures r.Ok? ==> r.value == KwargsBytes(keywords)
    ensures r.Err? ==> exists i :: 0 <= i < |keywords| && EncodeNode(p, keywords[i].v) == Err(r.error)
  {
    var kw := LE(4, |keywords| % TWO_32);
    KeywordsNone(p, keywords, kw);
    for i := 0 to |keywords|
      invariant KeywordsDone(p, keywords, i, kw)
    {
      var k := keywords[i];
      var next := AppendKeyword(p, kw, k);
      if next.Err? { return next; }
      KeywordStep(p, keywords, i, kw);
      kw := next.value;
    }
    KeywordsAll(p, keywords, kw);
    r := Ok(kw);
  }

  lemma KeywordsNone(p: nat, ks: seq<NamedValue>, kw: seq<byte>)
    requires kw == LE(4, |ks| % TWO_32)
    ensures KeywordsDone(p, ks, 0, kw)
  {
    assert ks[..0] == [];
    assert kw + [] == kw;
  }

  lemma KeywordsAll(p: nat, ks: seq<NamedValue>, kw: seq<byte>)
    requires KeywordsDone(p, ks, |ks|, kw)
    ensures kw == KwargsBytes(ks)
  {
    assert ks[..|ks|] == ks;
  }

  /** Some argument is refused with error e. */
  ghost predicate Refused(p: nat, args: seq<Arg>, e: Error) {
    exists i :: 0 <= i < |args| && EncodeNode(p, Carried(args[i])) == Err(e)
  }

  /** Encoding succeeds exactly when every handle among the arguments is live and
      this instance's own; the error is then that of some argument. */
  method EncodeCallArgs(p: nat, args: seq<Arg>) returns (r: Result<(seq<byte>, seq<byte>)>)
    ensures r.Ok? <==> forall i :: 0 <= i < |args| ==> Encodable(p, Carried(args[i]))
    ensures r.Ok? ==> r.value == (ListBytes(SentAll(Positionals(args))), KwargsBytes(Keywords(args)))
    ensures r.Err? ==> Refused(p, args, r.error)
  {
    var positional, keywords := SplitArgs(args);
    EncodesIff(p, positional);
    var pos := EncodeList(p, positional);
    if pos.Err? {
      ghost var i := FirstRefused(p, positional);
      PositionalArg(args, positional[i]);
      return Err(pos.error);
    }
    var kw := EncodeKeywords(p, keywords);
    if kw.Err? {
      ghost var i :| 0 <= i < |keywords| && EncodeNode(p, keywords[i].v) == Err(kw.error);
      KeywordArg(args, keywords[i]);
      return Err(kw.error);
    }
    AllEncodable(p, args);
    r := Ok((pos.value, kw.value));
  }

  lemma AllEncodable(p: nat, args: seq<Arg>)
    requires forall i :: 0 <= i < |Positionals(args)| ==> Encodable(p, Positionals(args)[i])
    requires forall i :: 0 <= i < |Keywords(args)| ==> Encodable(p, Keywords(args)[i].v)
    ensures forall i :: 0 <= i < |args| ==> Encodable(p, Carried(args[i]))
  {
    forall i | 0 <= i < |args| ensures Encodable(p, Carried(args[i])) {
      ArgCovered(args, i);
      if args[i].Keyword? {
        var j :| 0 <= j < |Keywords(args)| && Keywords(args)[j] == NamedValue(args[i].name, args[i].v);
      } else {
        var j :| 0 <= j < |Positionals(args)| && Positionals(args)[j] == Carried(args[i]);
      }
    }
  }

  lemma {:induction false} FirstRefused(p: nat, vs: seq<Value>) returns (i: nat)
    requires EncodeNodes(p, vs).Err?
    ensures i < |vs| && EncodeNode(p, vs[i]) == EncodeNodes(p, vs)
  {
    if EncodeNodes(p, vs[..|vs| - 1]).Err? {
      i := FirstRefused(p, vs[..|vs| - 1]);
    } else {
      i := |vs| - 1;
    }
  }

  /** Every argument ends up in one of the two lists, and nothing else does. */
  lemma {:induction false} ArgCovered(args: seq<Arg>, i: nat)
    requires i < |args|
    ensures if args[i].Keyword? then NamedValue(args[i].name, args[i].v) in Keywords(args)
      else Carried(args[i]) in Positionals(args)
  {
    if i < |args| - 1 { ArgCovered(args[..|args| - 1], i); }
  }

  lemma {:induction false} PositionalArg(args: seq<Arg>, v: Value)
    requires v in Positionals(args)
    ensures exists i :: 0 <= i < |args| && !args[i].Keyword? && Carried(args[i]) == v
  {
    var front := args[..|args| - 1];
    if v in Positionals(front) {
      PositionalArg(front, v);
      var i :| 0 <= i < |front| && !front[i].Keyword? && Carried(front[i]) == v;
      assert args[i] == front[i];
    }
  }

  lemma {:induction false} KeywordArg(args: seq<Arg>, k: NamedValue)
    requires k in Keywords(args)
    ensures exists i :: 0 <= i < |args| && args[i] == Keyword(k.name, k.v) && Carried(args[i]) == k.v
  {
    var front := args[..|args| - 1];
    if k in Keywords(front) {
      KeywordArg(front, k);
      var i :| 0 <= i < |front| && front[i] == Keyword(k.name, k.v);
      assert args[i] == front[i];
    }
  }

  // ---- the decoder ----------------------------------------------------------

  /** A name and a node. */
  function ParseKeyword(p: nat, c: Cursor): (r: (seq<byte>, Result<Value>, Cursor))
    requires c.Valid()
    ensures Advances(c, r.2)
    ensures r.1.Ok? ==> c.pos < r.2.pos
  {
    var (name, c1) := c.LenBytes(4);
    var (v, c2) := ParseNode(p, c1);
    (name, v, c2)
  }

  /** n named values added to m, later ones overwriting earlier ones. */
  function ParseKeywords(p: nat, c: Cursor, n: nat, m: Kwargs): (r: (Result<Kwargs>, Cursor))
    requires c.Valid()
    ensures Advances(c, r.1)
    ensures r.0.Ok? ==> n <= r.1.pos - c.pos
    decreases n
  {
    if n == 0 then (Ok(m), c)
    else
      var (name, v, c1) := ParseKeyword(p, c);
      if v.Err? then (Err(v.error), c1) else ParseKeywords(p, c1, n - 1, m[name := v.value])
  }

  /** The argument lists a callback request carries. */
  function ParseCall(p: nat, req: seq<byte>): Result<(seq<Value>, Kwargs)> {
    var (count, c) := Cursor(Buffer(req), 0, false).Word(4);
    if c.fail then Err(MalformedList)
    else
      var (args, c1) := ParseNodes(p, c, count);
      if args.Err? then Err(args.error)
      else
        var (kcount, c2) := c1.Word(4);
        if kcount == 0 || c2.fail then Ok((args.value, map[]))
        else
          var kwargs := ParseKeywords(p, c2, kcount, map[]).0;
          if kwargs.Err? then Err(kwargs.error) else Ok((args.value, kwargs.value))
  }

  lemma KeywordsStep(p: nat, c: Cursor, n: nat, m: Kwargs)
    requires c.Valid() && n > 0
    ensures var (name, v, c1) := ParseKeyword(p, c);
      ParseKeywords(p, c, n, m) ==
        if v.Err? then (Err(v.error), c1) else ParseKeywords(p, c1, n - 1, m[name := v.value])
  {}

  /** The keywords decoded so far and the n to come make up `whole`. */
  ghost predicate KeywordsLead(p: nat, c: Cursor, n: nat, m: Kwargs, whole: (Result<Kwargs>, Cursor)) {
    c.Valid() && ParseKeywords(p, c, n, m) == whole
  }

  lemma KeywordsLeadToEnd(p: nat, c: Cursor, n: nat, m: Kwargs, whole: (Result<Kwargs>, Cursor))
    requires n == 0 && KeywordsLead(p, c, n, m, whole)
    ensures whole == (Ok(m), c)
  {}

  /** One round of the keyword loop, with n rounds to go. */
  method DecodeKeyword(p: nat, r: NodeReader, m: Kwargs, ghost n: nat, ghost whole: (Result<Kwargs>, Cursor))
    returns (next: Result<Kwargs>)
    requires n > 0 && KeywordsLead(p, r.Cur(), n, m, whole)
    modifies r
    ensures if next.Err? then (next, r.Cur()) == whole else KeywordsLead(p, r.Cur(), n - 1, next.value, whole)
  {
    KeywordsStep(p, r.Cur(), n, m);
    var name := r.ReadLenBytes(4);
    var v := DecodeNode(p, r);
    if v.Err? { return Err(v.error); }
    next := Ok(m[name := v.value]);
  }

  /** The keyword loop. */
  method DecodeKeywordsFrom(p: nat, r: NodeReader, count: nat, start: Kwargs, ghost whole: (Result<Kwargs>, Cursor))
    returns (kwargs: Result<Kwargs>)
    requires KeywordsLead(p, r.Cur(), count, start, whole)
    modifies r
    ensures whole == (kwargs, r.Cur())
  {
    hide ParseKeyword, ParseKeywords;
    var m := start;
    var left := count;
    while left > 0
      invariant KeywordsLead(p, r.Cur(), left, m, whole)
    {
      var next := DecodeKeyword(p, r, m, left, whole);
      if next.Err? { return next; }
      m, left := next.value, left - 1;
    }
    KeywordsLeadToEnd(p, r.Cur(), left, m, whole);
    kwargs := Ok(m);
  }

  method DecodeKeywords(p: nat, r: NodeReader, count: nat) returns (kwargs: Result<Kwargs>)
    requires r.Cur().Valid()
    modifies r
    ensures (kwargs, r.Cur()) == ParseKeywords(p, old(r.Cur()), count, map[])
  {
    ghost var whole := ParseKeywords(p, r.Cur(), count, map[]);
    kwargs := DecodeKeywordsFrom(p, r, count, map[], whole);
  }

  method DecodeCall(p: nat, req: seq<byte>) returns (call: Result<(seq<Value>, Kwargs)>)
    ensures call == ParseCall(p, req)
  {
    var r := new NodeReader(req);
    var count := r.ReadWord(4);
    if r.fail { return Err(MalformedList); }
    var args := DecodeNodes(p, r, count);
    if args.Err? { return Err(args.error); }
    var kcount := r.ReadWord(4);
    if kcount > 0 && !r.fail {
      var kwargs := DecodeKeywords(p, r, kcount);
      if kwargs.Err? { return Err(kwargs.error); }
      return Ok((args.value, kwargs.value));
    }
    call := Ok((args.value, map[]));
  }

  // ---- round trip -----------------------------------------------------------

  /** What arrives of the keywords: the last value of each name. */
  function KeywordMap(p: nat, ks: seq<NamedValue>, m: Kwargs): Kwargs {
    if ks == [] then m else KeywordMap(p, ks[1..], m[ks[0].name := Arrives(p, Sent(ks[0].v))])
  }

  lemma {:induction false} KeywordMapKeeps(p: nat, ks: seq<NamedValue>, m: Kwargs, name: seq<byte>)
    requires forall i :: 0 <= i < |ks| ==> ks[i].name != name
    ensures name in KeywordMap(p, ks, m) <==> name in m
    ensures name in m ==> KeywordMap(p, ks, m)[name] == m[name]
    decreases |ks|
  {
    if ks != [] { KeywordMapKeeps(p, ks[1..], m[ks[0].name := Arrives(p, Sent(ks[0].v))], name); }
  }

  /** Of the values given under one name the last arrives, and a name that was not
      given does not. */
  lemma {:induction false} LastDuplicateWins(p: nat, ks: seq<NamedValue>, m: Kwargs, i: nat)
    requires i < |ks| && forall j :: i < j < |ks| ==> ks[j].name != ks[i].name
    ensures ks[i].name in KeywordMap(p, ks, m) && KeywordMap(p, ks, m)[ks[i].name] == Arrives(p, Sent(ks[i].v))
    ensures forall name :: name in KeywordMap(p, ks, map[]) ==> exists j :: 0 <= j < |ks| && ks[j].name == name
    decreases |ks|
  {
    var m1 := m[ks[0].name := Arrives(p, Sent(ks[0].v))];
    if i == 0 {
      KeywordMapKeeps(p, ks[1..], m1, ks[0].name);
    } else {
      LastDuplicateWins(p, ks[1..], m1, i - 1);
    }
    forall name | name in KeywordMap(p, ks, map[]) ensures exists j :: 0 <= j < |ks| && ks[j].name == name {
      if forall j :: 0 <= j < |ks| ==> ks[j].name != name { KeywordMapKeeps(p, ks, map[], name); }
    }
  }

  predicate SendableKeywords(ks: seq<NamedValue>) {
    forall i :: 0 <= i < |ks| ==> |ks[i].name| < TWO_32 && Sendable(Sent(ks[i].v))
  }

  lemma {:induction false} KeywordsRoundTrip(p: nat, ks: seq<NamedValue>, c: Cursor, m: Kwargs)
    requires SendableKeywords(ks) && At(c, KeywordsBytes(ks))
    ensures c.Valid() && ParseKeywords(p, c, |ks|, m) == (Ok(KeywordMap(p, ks, m)), Past(c, KeywordsBytes(ks)))
    decreases |ks|
  {
    if ks != [] {
      var k := ks[0];
      AtSplit(c, KeywordBytes(k), KeywordsBytes(ks[1..]));
      var c2 := OneKeyword(p, k, c);
      KeywordsRoundTrip(p, ks[1..], c2, m[k.name := Arrives(p, Sent(k.v))]);
    }
  }

  lemma OneKeyword(p: nat, k: NamedValue, c: Cursor) returns (c2: Cursor)
    requires SendableKeywords([k]) && At(c, KeywordBytes(k))
    ensures c.Valid() && c2 == Past(c, KeywordBytes(k))
    ensures ParseKeyword(p, c) == (k.name, Ok(Arrives(p, Sent(k.v))), c2)
  {
    assert [k][0] == k;
    AtSplit(c, LenPrefixed(4, k.name), NodeBytes(Sent(k.v)));
    WordSizes();
    LenBytesAt(c, 4, k.name);
    NodeRoundTrip(p, Sent(k.v), Past(c, LenPrefixed(4, k.name)));
    c2 := Past(c, KeywordBytes(k));
  }

  predicate SendableArgs(args: seq<Arg>) {
    && |args| < TWO_32
    && forall i :: 0 <= i < |args| ==>
         Sendable(Sent(Carried(args[i])))
         && (args[i].Keyword? ==> |args[i].name| < TWO_32)
  }

  lemma {:induction false} SplitSizes(args: seq<Arg>)
    ensures |Positionals(args)| + |Keywords(args)| == |args|
  {
    if args != [] { SplitSizes(args[..|args| - 1]); }
  }

  /** A call with arguments args, as it is sent. */
  function CallBytes(args: seq<Arg>): seq<byte> {
    ListBytes(SentAll(Positionals(args))) + KwargsBytes(Keywords(args))
  }

  lemma PositionalsAt(p: nat, vs: seq<Value>, c: Cursor) returns (d: Cursor)
    requires |vs| < TWO_32 && (forall i :: 0 <= i < |vs| ==> Sendable(vs[i])) && At(c, ListBytes(vs))
    ensures c.Valid() && c.Word(4) == (|vs|, d) && d.Valid() && !d.fail
    ensures ParseNodes(p, d, |vs|) == (Ok(ArriveAll(p, vs)), Past(c, ListBytes(vs)))
  {
    hide ParseNodes, NodesBytes, ArriveAll, LE;
    d := Past(c, LE(4, |vs| % TWO_32));
    CountAt(c, |vs|, NodesBytes(vs));
    NodesRoundTrip(p, vs, d);
  }

  lemma KeywordsAt(p: nat, ks: seq<NamedValue>, c: Cursor) returns (d: Cursor)
    requires |ks| < TWO_32 && SendableKeywords(ks) && At(c, KwargsBytes(ks))
    ensures c.Valid() && c.Word(4) == (|ks|, d) && d.Valid() && !d.fail
    ensures ParseKeywords(p, d, |ks|, map[]).0 == Ok(KeywordMap(p, ks, map[]))
  {
    hide ParseKeywords, KeywordsBytes, KeywordMap, LE;
    d := Past(c, LE(4, |ks| % TWO_32));
    CountAt(c, |ks|, KeywordsBytes(ks));
    KeywordsRoundTrip(p, ks, d, map[]);
  }

  /** The bytes of a call: the positional list, then the keyword list. */
  lemma CallOnTheWire(p: nat, vs: seq<Value>, ks: seq<NamedValue>)
    requires |vs| < TWO_32 && |ks| < TWO_32
    requires (forall i :: 0 <= i < |vs| ==> Sendable(vs[i])) && SendableKeywords(ks)
    ensures ParseCall(p, (LE(4, |vs|) + NodesBytes(vs)) + (LE(4, |ks|) + KeywordsBytes(ks))) ==
      Ok((ArriveAll(p, vs), KeywordMap(p, ks, map[])))
  {
    SmallMod(|vs|, TWO_32);
    SmallMod(|ks|, TWO_32);
    PartsParse(p, vs, ks);
  }

  lemma PartsParse(p: nat, vs: seq<Value>, ks: seq<NamedValue>)
    requires |vs| < TWO_32 && |ks| < TWO_32
    requires (forall i :: 0 <= i < |vs| ==> Sendable(vs[i])) && SendableKeywords(ks)
    ensures ParseCall(p, ListBytes(vs) + KwargsBytes(ks)) == Ok((ArriveAll(p, vs), KeywordMap(p, ks, map[])))
  {
    hide ParseNodes, ParseKeywords, ListBytes, KwargsBytes, ArriveAll, Cursor.Word;
    var c := Cursor(Buffer(ListBytes(vs) + KwargsBytes(ks)), 0, false);
    AtSplit(c, ListBytes(vs), KwargsBytes(ks));
    var d := PositionalsAt(p, vs, c);
    var e := KeywordsAt(p, ks, Past(c, ListBytes(vs)));
    assert |ks| == 0 ==> KeywordMap(p, ks, map[]) == map[];
  }

  /** The bytes of a keyword: its name, then its value. */
  lemma KeywordOnTheWire(p: nat, name: seq<byte>, v: Value, c: Cursor)
    requires |name| < TWO_32 && Sendable(Sent(v)) && At(c, (LE(4, |name|) + name) + NodeBytes(Sent(v)))
    ensures c.Valid() && ParseKeyword(p, c).0 == name && ParseKeyword(p, c).1 == Ok(Received(p, v))
    ensures KeywordsBytes([NamedValue(name, v)]) == (LE(4, |name|) + name) + NodeBytes(Sent(v))
  {
    hide ParseKeyword, NodeBytes, LE, Arrives, Sent;
    var k := NamedValue(name, v);
    WordSizes();
    SmallMod(|name|, Pow256(4));
    assert SendableKeywords([k]);
    var c1 := OneKeyword(p, k, c);
    assert [k][1..] == [];
  }

  /** Serving the joined lists yields the positionals in their original order and the
      keyword map with the last duplicate winning. */
  lemma CallRoundTrip(p: nat, args: seq<Arg>)
    requires SendableArgs(args)
    ensures ParseCall(p, CallBytes(args)) ==
      Ok((ArriveAll(p, SentAll(Positionals(args))), KeywordMap(p, Keywords(args), map[])))
  {
    hide ParseCall, ArriveAll, KeywordMap, SentAll, NodesBytes, KeywordsBytes, LE, Positionals, Keywords;
    SplitSizes(args);
    SendableParts(args);
    PartsParse(p, SentAll(Positionals(args)), Keywords(args));
  }

  lemma SendableParts(args: seq<Arg>)
    requires SendableArgs(args)
    ensures SendableKeywords(Keywords(args))
    ensures var vs := SentAll(Positionals(args));
      forall i :: 0 <= i < |vs| ==> Sendable(vs[i])
  {
    var ps, ks := Positionals(args), Keywords(args);
    forall i | 0 <= i < |ps| ensures Sendable(Sent(ps[i])) {
      PositionalArg(args, ps[i]);
    }
    forall i | 0 <= i < |ks| ensures |ks[i].name| < TWO_32 && Sendable(Sent(ks[i].v)) {
      KeywordArg(args, ks[i]);
    }
  }

  // ---- work bound and truncation --------------------------------------------

  /** How many keywords a list of claimed length n decodes before it ends or fails.
      Whatever 32-bit count is claimed, the data bounds it. */
  function DecodedKeywords(p: nat, c: Cursor, n: nat): (r: nat)
    requires c.Valid()
    ensures r <= |c.buf.bytes| - c.pos && r <= n
    decreases n
  {
    if n == 0 then 0
    else
      var k := ParseKeyword(p, c);
      if k.1.Err? then 0 else 1 + DecodedKeywords(p, k.2, n - 1)
  }

  /** The loop succeeds exactly when all the keywords claimed decode. */
  ghost predicate AllOrError(p: nat, c: Cursor, n: nat, m: Kwargs)
    requires c.Valid()
  {
    ParseKeywords(p, c, n, m).0.Ok? <==> DecodedKeywords(p, c, n) == n
  }

  lemma OneRound(p: nat, c: Cursor, n: nat, m: Kwargs) returns (ok: bool, c1: Cursor, m1: Kwargs)
    requires c.Valid() && n > 0
    ensures c1.Valid()
    ensures if ok then AllOrError(p, c1, n - 1, m1) ==> AllOrError(p, c, n, m) else AllOrError(p, c, n, m)
  {
    KeywordsStep(p, c, n, m);
    var k := ParseKeyword(p, c);
    ok, c1 := k.1.Ok?, k.2;
    m1 := if ok then m[k.0 := k.1.value] else m;
  }

  lemma {:induction false} AllKeywordsDecoded(p: nat, c: Cursor, n: nat, m: Kwargs)
    requires c.Valid()
    ensures AllOrError(p, c, n, m)
    decreases n
  {
    if n == 0 {
      NoRound(p, c, m);
    } else {
      var ok, c1, m1 := OneRound(p, c, n, m);
      if ok { AllKeywordsDecoded(p, c1, n - 1, m1); }
    }
  }

  lemma NoRound(p: nat, c: Cursor, m: Kwargs)
    requires c.Valid()
    ensures AllOrError(p, c, 0, m)
  {}

  /** The cut is n bytes into the keywords, inside the payload of the last value, which is
      a fixed-size scalar. */
  predicate CutInLastValue(ks: seq<NamedValue>, n: int) {
    ks != [] && FixedSize(ks[|ks| - 1].v) && n > |KeywordsBytes(ks)| - |NodeBytes(Sent(ks[|ks| - 1].v))|
  }

  lemma {:induction false} LastValueWithin(ks: seq<NamedValue>)
    requires ks != []
    ensures |KeywordsBytes(ks)| >= |NodeBytes(Sent(ks[|ks| - 1].v))|
    decreases |ks|
  {
    if |ks| > 1 { LastValueWithin(ks[1..]); }
  }

  lemma {:induction false} CutInLastValueCons(ks: seq<NamedValue>, h: nat, h1: nat, k: nat)
    requires ks != [] && h <= k && h1 == h + |KeywordBytes(ks[0])|
    ensures |KeywordsBytes(ks)| == |KeywordBytes(ks[0])| + |KeywordsBytes(ks[1..])|
    ensures |ks| == 1 ==> (CutInLastValue(ks, k - h) <==> k > h + 4 + |ks[0].name| && FixedSize(ks[0].v))
    ensures |ks| > 1 && k < h1 ==> !CutInLastValue(ks, k - h)
    ensures |ks| > 1 ==> (CutInLastValue(ks, k - h) <==> CutInLastValue(ks[1..], k - h1))
  {
    if |ks| == 1 {
      CutInOnlyValue(ks, k - h);
    } else {
      LastValueWithin(ks[1..]);
    }
  }

  lemma {:induction false} CutInOnlyValue(ks: seq<NamedValue>, n: nat)
    requires |ks| == 1
    ensures KeywordsBytes(ks) == KeywordBytes(ks[0])
    ensures CutInLastValue(ks, n) <==> n > 4 + |ks[0].name| && FixedSize(ks[0].v)
  {
    assert ks[1..] == [];
  }

  lemma {:induction false} KeywordsPrefixIff(p: nat, ks: seq<NamedValue>, c: Cursor, h: nat, k: nat, m: Kwargs)
    requires SendableKeywords(ks) && At(c, KeywordsBytes(ks)) && h == c.pos <= k < h + |KeywordsBytes(ks)|
    ensures c.Valid()
    ensures ParseKeywords(p, c.Cut(k), |ks|, m).0.Ok? <==> CutInLastValue(ks, k - h)
    decreases |ks|
  {
    var h1 := h + |KeywordBytes(ks[0])|;
    CutInLastValueCons(ks, h, h1, k);
    if h1 <= k {
      var c1, m1 := FirstKept(p, ks, c, k, m);
      KeywordsPrefixIff(p, ks[1..], c1, h1, k, m1);
    } else {
      KeywordLost(p, ks[0], KeywordsBytes(ks[1..]), c, k);
      KeywordsLost(p, c.Cut(k), |ks|, m);
    }
  }

  lemma FirstKept(p: nat, ks: seq<NamedValue>, c: Cursor, k: nat, m: Kwargs) returns (c1: Cursor, m1: Kwargs)
    requires ks != [] && SendableKeywords(ks) && At(c, KeywordsBytes(ks))
    requires c.pos + |KeywordBytes(ks[0])| <= k <= |c.buf.bytes|
    ensures c.Valid() && c1.buf == c.buf && c1.pos == c.pos + |KeywordBytes(ks[0])| && c1.Valid()
    ensures At(c1, KeywordsBytes(ks[1..]))
    ensures ParseKeywords(p, c.Cut(k), |ks|, m).0.Ok? <==> ParseKeywords(p, c1.Cut(k), |ks[1..]|, m1).0.Ok?
  {
    c1 := KeywordKept(p, ks[0], KeywordsBytes(ks[1..]), c, k);
    m1 := m[ks[0].name := Arrives(p, Sent(ks[0].v))];
    KeywordsStep(p, c.Cut(k), |ks|, m);
  }

  lemma KeywordKept(p: nat, kw: NamedValue, rest: seq<byte>, c: Cursor, k: nat) returns (c1: Cursor)
    requires |kw.name| < TWO_32 && Sendable(Sent(kw.v))
    requires At(c, KeywordBytes(kw) + rest) && c.pos + |KeywordBytes(kw)| <= k <= |c.buf.bytes|
    ensures c.Valid() && c1.buf == c.buf && c1.pos == c.pos + |KeywordBytes(kw)| && c1.Valid() && At(c1, rest)
    ensures ParseKeyword(p, c.Cut(k)) == (kw.name, Ok(Arrives(p, Sent(kw.v))), c1.Cut(k))
  {
    AtSplit(c, KeywordBytes(kw), rest);
    CutAt(c, KeywordBytes(kw), k);
    assert SendableKeywords([kw]);
    var c2 := OneKeyword(p, kw, c.Cut(k));
    c1 := Past(c, KeywordBytes(kw));
  }

  /** A cut inside the name loses the value too. */
  lemma KeywordLost(p: nat, kw: NamedValue, rest: seq<byte>, c: Cursor, k: nat)
    requires |kw.name| < TWO_32 && Sendable(Sent(kw.v))
    requires At(c, KeywordBytes(kw) + rest) && c.pos <= k < c.pos + |KeywordBytes(kw)|
    ensures c.Valid()
    ensures ParseKeyword(p, c.Cut(k)).1.Ok? <==> k > c.pos + 4 + |kw.name| && FixedSize(kw.v)
    ensures ParseKeyword(p, c.Cut(k)).1.Ok? ==> ParseKeyword(p, c.Cut(k)).2.fail
  {
    AtSplit(c, KeywordBytes(kw), rest);
    AtSplit(c, LenPrefixed(4, kw.name), NodeBytes(Sent(kw.v)));
    var c1 := Past(c, LenPrefixed(4, kw.name));
    WordSizes();
    LenBytesAt(c, 4, kw.name);
    LenBytesCut(c, 4, k);
    if c1.pos <= k {
      assert NodeBytes(Sent(kw.v)) + [] == NodeBytes(Sent(kw.v));
      NodeLost(p, Sent(kw.v), [], c1, k);
    }
  }

  /** After a value that overran, only the end of the list is no error. */
  lemma KeywordsLost(p: nat, c: Cursor, n: nat, m: Kwargs)
    requires c.Valid() && n > 0 && (ParseKeyword(p, c).1.Ok? ==> ParseKeyword(p, c).2.fail)
    ensures ParseKeywords(p, c, n, m).0.Ok? <==> n == 1 && ParseKeyword(p, c).1.Ok?
  {
    KeywordsStep(p, c, n, m);
    var (name, v, c1) := ParseKeyword(p, c);
    if v.Ok? && n > 1 { KeywordsStep(p, c1, n - 1, m[name := v.value]); }
  }

  /** What follows the positionals is no error: no count, none, or as many keywords. */
  predicate KeywordsFollow(p: nat, c: Cursor)
    requires c.Valid()
  {
    var (kcount, c1) := c.Word(4);
    kcount == 0 || c1.fail || ParseKeywords(p, c1, kcount, map[]).0.Ok?
  }

  /** What follows the argument count is no error. */
  predicate ArgumentsFollow(p: nat, c: Cursor, count: nat)
    requires c.Valid()
  {
    ParseNodes(p, c, count).0.Ok? && KeywordsFollow(p, ParseNodes(p, c, count).1)
  }

  /** A cut inside the keyword count drops the keywords. */
  lemma KwargsCut(p: nat, ks: seq<NamedValue>, c: Cursor, h: nat, k: nat)
    requires SendableKeywords(ks) && |ks| < TWO_32 && At(c, KwargsBytes(ks)) && h == c.pos
    requires h <= k < h + |KwargsBytes(ks)|
    ensures c.Valid()
    ensures KeywordsFollow(p, c.Cut(k)) <==> k < h + 4 || CutInLastValue(ks, k - h - 4)
  {
    CountAt(c, |ks|, KeywordsBytes(ks));
    WordCut(c, 4, k);
    if k >= h + 4 {
      KeywordsPrefixIff(p, ks, Past(c, LE(4, |ks| % TWO_32)), h + 4, k, map[]);
    }
  }

  lemma InPositionals(p: nat, vs: seq<Value>, c: Cursor, h: nat, k: nat)
    requires forall i :: 0 <= i < |vs| ==> Sendable(vs[i])
    requires At(c, NodesBytes(vs)) && h == c.pos <= k < c.pos + |NodesBytes(vs)|
    ensures c.Valid()
    ensures ArgumentsFollow(p, c.Cut(k), |vs|) <==> CutInLast(vs, k - h)
  {
    NodesPrefixIff(p, vs, c, k);
    if ParseNodes(p, c.Cut(k), |vs|).0.Ok? { NothingFollows(p, ParseNodes(p, c.Cut(k), |vs|).1); }
  }

  lemma NothingFollows(p: nat, c: Cursor)
    requires c.Valid() && c.fail
    ensures KeywordsFollow(p, c)
  {}

  lemma PositionalsKept(p: nat, vs: seq<Value>, c: Cursor, k: nat) returns (c1: Cursor)
    requires forall i :: 0 <= i < |vs| ==> Sendable(vs[i])
    requires At(c, NodesBytes(vs)) && c.pos + |NodesBytes(vs)| <= k <= |c.buf.bytes|
    ensures c.Valid() && c1 == Past(c, NodesBytes(vs)) && c1.Valid()
    ensures ArgumentsFollow(p, c.Cut(k), |vs|) <==> KeywordsFollow(p, c1.Cut(k))
  {
    CutAt(c, NodesBytes(vs), k);
    NodesRoundTrip(p, vs, c.Cut(k));
    c1 := Past(c, NodesBytes(vs));
  }

  lemma InKeywords(p: nat, vs: seq<Value>, ks: seq<NamedValue>, c: Cursor, h: nat, k: nat)
    requires (forall i :: 0 <= i < |vs| ==> Sendable(vs[i])) && SendableKeywords(ks) && |ks| < TWO_32
    requires At(c, NodesBytes(vs)) && At(Past(c, NodesBytes(vs)), KwargsBytes(ks))
    requires h == c.pos + |NodesBytes(vs)| <= k < h + |KwargsBytes(ks)|
    ensures c.Valid()
    ensures ArgumentsFollow(p, c.Cut(k), |vs|) <==> k < h + 4 || CutInLastValue(ks, k - h - 4)
  {
    var c1 := PositionalsKept(p, vs, c, k);
    KwargsCut(p, ks, c1, h, k);
  }

  /** The cut leaves the argument count and all positionals but, at most, the payload of a
      last fixed-size scalar; and if it leaves the whole keyword count, also all keywords
      but that much of the last. */
  predicate Survives(vs: seq<Value>, ks: seq<NamedValue>, k: nat) {
    var h := 4 + |NodesBytes(vs)|;
    if k < h then k >= 4 && CutInLast(vs, k - 4)
    else k < h + 4 || CutInLastValue(ks, k - h - 4)
  }

  lemma ParseCallIff(p: nat, c: Cursor)
    requires c == Cursor(c.buf, 0, false)
    ensures ParseCall(p, c.buf.bytes).Ok? <==> !c.Word(4).1.fail && ArgumentsFollow(p, c.Word(4).1, c.Word(4).0)
  {}

  /** Some truncated requests still run the bound function, with a zero for the scalar
      that was cut, or without the keywords: exactly those that survive in this sense. */
  lemma CallPrefixRunsIff(p: nat, args: seq<Arg>, k: nat)
    requires SendableArgs(args) && k < |CallBytes(args)|
    ensures ParseCall(p, CallBytes(args)[..k]).Ok? <==> Survives(SentAll(Positionals(args)), Keywords(args), k)
  {
    var vs, ks := SentAll(Positionals(args)), Keywords(args);
    SplitSizes(args);
    SendableParts(args);
    var c := Cursor(Buffer(CallBytes(args)), 0, false);
    assert At(c, LE(4, |vs| % TWO_32) + NodesBytes(vs) + KwargsBytes(ks));
    var runs := CutCall(p, vs, ks, c, k);
  }

  lemma CutCall(p: nat, vs: seq<Value>, ks: seq<NamedValue>, c: Cursor, k: nat) returns (runs: bool)
    requires (forall i :: 0 <= i < |vs| ==> Sendable(vs[i])) && SendableKeywords(ks)
    requires |vs| < TWO_32 && |ks| < TWO_32
    requires c.pos == 0 && At(c, LE(4, |vs| % TWO_32) + NodesBytes(vs) + KwargsBytes(ks))
    requires k < 4 + |NodesBytes(vs)| + |KwargsBytes(ks)|
    ensures runs == ParseCall(p, c.buf.bytes[..k]).Ok? && runs == Survives(vs, ks, k)
  {
    var c1 := CountCut(p, c, |vs|, NodesBytes(vs), KwargsBytes(ks), k);
    var h := 4 + |NodesBytes(vs)|;
    if k < 4 {
      runs := false;
    } else if k < h {
      InPositionals(p, vs, c1, 4, k);
      runs := CutInLast(vs, k - 4);
    } else {
      InKeywords(p, vs, ks, c1, h, k);
      runs := k < h + 4 || CutInLastValue(ks, k - h - 4);
    }
  }

  lemma CountCut(p: nat, c: Cursor, n: nat, nodes: seq<byte>, kwargs: seq<byte>, k: nat) returns (c1: Cursor)
    requires n < TWO_32 && c.pos == 0 && k <= |c.buf.bytes|
    requires At(c, LE(4, n % TWO_32) + nodes + kwargs)
    ensures c1.pos == 4 && c1.Valid() && c1.buf == c.buf && At(c1, nodes) && At(Past(c1, nodes), kwargs)
    ensures ParseCall(p, c.buf.bytes[..k]).Ok? <==> k >= 4 && ArgumentsFollow(p, c1.Cut(k), n)
  {
    AtSplit(c, LE(4, n % TWO_32) + nodes, kwargs);
    CountAt(c, n, nodes);
    WordCut(c, 4, k);
    ParseCallIff(p, c.Cut(k));
    c1 := Past(c, LE(4, n % TWO_32));
  }
}
