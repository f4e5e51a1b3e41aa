/** The response parser (parsePacket): a header line, an optional body and
    the status line that closed them become one typed packet, no packet at
    all, or a panic when an argument is missing or of the wrong kind. */
module Parser {
  import opened Packets
  import opened GoStrings

  /** What parsePacket yields: a packet, Go's nil, or a run-time panic (a
      failed type assertion or an index out of range). */
  datatype Parsed = Got(packet: Packet) | Nil | Panic

  /** `args[i].(string)`: the i-th argument if it is a string. */
  function StrArg(args: seq<Arg>, i: nat): (r: Option<string>)
    ensures r.Some? <==> i < |args| && args[i].Str?
    ensures r.Some? ==> args[i] == Str(r.value)
  {
    if i < |args| && args[i].Str? then Some(args[i].s) else None
  }

  /** `args[i].(int)`: the i-th argument if it is an integer. */
  function IntArg(args: seq<Arg>, i: nat): (r: Option<int>)
    ensures r.Some? <==> i < |args| && args[i].Int?
    ensures r.Some? ==> args[i] == Int(r.value)
  {
    if i < |args| && args[i].Int? then Some(args[i].i) else None
  }

  /** The integer arguments, in order, with every string argument skipped. */
  function Ints(args: seq<Arg>): (r: seq<int>)
    decreases |args|
    ensures |r| <= |args|
    ensures forall v :: v in r ==> Int(v) in args
  {
    if args == [] then []
    else
      var init := args[..|args| - 1];
      var last := args[|args| - 1];
      var r := Ints(init) + (if last.Int? then [last.i] else []);
      assert forall a :: a in init ==> a in args;
      r
  }

  /** Ints distributes over concatenation: the integers of a + b are
      those of a followed by those of b. */
  lemma {:induction false} IntsAppend(a: seq<Arg>, b: seq<Arg>)
    decreases |b|
    ensures Ints(a + b) == Ints(a) + Ints(b)
  {
    if b != [] {
      var init := b[..|b| - 1];
      var last := b[|b| - 1];
      assert (a + b)[..|a + b| - 1] == a + init;
      assert (a + b)[|a + b| - 1] == last;
      IntsAppend(a, init);
    } else {
      assert a + b == a;
    }
  }

  /** One argument is kept exactly when it is an integer. */
  lemma IntsOne(x: Arg)
    ensures Ints([x]) == if x.Int? then [x.i] else []
  {
    assert [x][..0] == [];
  }

  /** When every argument is an integer, none is skipped. */
  lemma {:induction false} IntsAllInts(args: seq<Arg>)
    requires forall i :: 0 <= i < |args| ==> args[i].Int?
    decreases |args|
    ensures |Ints(args)| == |args|
    ensures forall i :: 0 <= i < |args| ==> Ints(args)[i] == args[i].i
  {
    if args != [] {
      var init := args[..|args| - 1];
      assert forall i :: 0 <= i < |init| ==> init[i] == args[i];
      IntsAllInts(init);
      assert Ints(args) == Ints(init) + [args[|args| - 1].i];
    }
  }

  /** The loop of the +CPMS set branch that keeps the integer arguments. */
  method CollectInts(args: seq<Arg>) returns (iargs: seq<int>)
    ensures iargs == Ints(args)
  {
    iargs := [];
    for i := 0 to |args|
      invariant iargs == Ints(args[..i])
    {
      assert args[..i + 1][..i] == args[..i];
      if args[i].Int? {
        iargs := iargs + [args[i].i];
      }
    }
    assert args[..|args|] == args;
  }

  /** The groups of a +CPMS query reply, as the parser cuts them: the outer
      parentheses come off and the rest is split at "),(" into at most
      three pieces. */
  function CpmsAreas(uargs: string): seq<string> {
    SplitN(TrimSuffix(TrimPrefix(uargs, "("), ")"), "),(", 3)
  }

  /** The +CPMS case: a query reply "(..),(..),(..)" lists the storage
      groups, a set reply with six integers is the capacity, and any other
      set reply falls out of the switch as an unknown +CPMS packet. */
  function Cpms(c: Codec, uargs: string, args: seq<Arg>): (r: Parsed)
    ensures r != Nil
    ensures r == Panic ==> HasPrefix(uargs, "(")
    ensures r.Got? ==> || r.packet.StorageAreasPacket?
                       || r.packet.StorageInfoPacket?
                       || r.packet == UnknownPacket("+CPMS", args)
    ensures r.Got? && r.packet.StorageAreasPacket? ==> HasPrefix(uargs, "(")
  {
    if HasPrefix(uargs, "(") then
      var areas := CpmsAreas(uargs);
      if |areas| < 3 then Panic
      else Got(StorageAreasPacket(StorageAreas(
        c.stringsUnquotes(areas[0]), c.stringsUnquotes(areas[1]), c.stringsUnquotes(areas[2]))))
    else
      var iargs := Ints(args);
      if |iargs| != 6 then Got(UnknownPacket("+CPMS", args))
      else Got(StorageInfoPacket(StorageInfo(iargs[0], iargs[1], iargs[2], iargs[3], iargs[4], iargs[5])))
  }

  /** The body of the `switch` on the tag before the first ':'; `uargs` is
      the trimmed text after it. */
  function Dispatch(c: Codec, status: string, tag: string, uargs: string, body: string): (r: Parsed)
    ensures r == Nil <==> tag == "+ZUSIMR"
    ensures r == Panic ==> tag in ["+ZPASR", "+ZDONR", "+CMTI", "+CMGR", "+CMGL", "+CPMS"]
    ensures r != Got(BodyPrompt)
    ensures r.Got? && r.packet.MessagePacket? ==>
              && (tag == "+CMGR" || tag == "+CMGL")
              && r.packet.message.body == body
              && (r.packet.message.last <==> tag == "+CMGL" && status != "")
  {
    var args := c.unquotes(uargs);
    if tag == "+ZUSIMR" then Nil
    else if tag == "+ZPASR" then
      (match StrArg(args, 0)
       case Some(s) => Got(ServiceStatus(s))
       case None => Panic)
    else if tag == "+ZDONR" then
      (match StrArg(args, 0)
       case Some(s) => Got(NetworkStatus(s))
       case None => Panic)
    else if tag == "+CMTI" then
      (match (StrArg(args, 0), IntArg(args, 1))
       case (Some(storage), Some(index)) => Got(MessageNotification(storage, index))
       case _ => Panic)
    else if tag == "+CSCA" then Got(SMSCAddress(args))
    else if tag == "+CMGR" then
      (match (StrArg(args, 0), StrArg(args, 1), StrArg(args, 3))
       case (Some(st), Some(tel), Some(ts)) =>
         Got(MessagePacket(Message(0, st, tel, c.parseTime(ts), body, false)))
       case _ => Panic)
    else if tag == "+CMGL" then
      (match (IntArg(args, 0), StrArg(args, 1), StrArg(args, 2), StrArg(args, 4))
       case (Some(index), Some(st), Some(tel), Some(ts)) =>
         Got(MessagePacket(Message(index, st, tel, c.parseTime(ts), body, status != "")))
       case _ => Panic)
    else if tag == "+CPMS" then Cpms(c, uargs, args)
    else if tag == "" then Got(if status == "OK" then OK else ERROR)
    else Got(UnknownPacket(tag, args))
  }

  /** parsePacket(status, header, body). */
  function ParsePacket(c: Codec, status: string, header: string, body: string): (r: Parsed)
    ensures r != Got(BodyPrompt)
    ensures r == Nil ==> HasPrefix(header, "+ZUSIMR:")
    ensures r.Got? && r.packet.MessagePacket? ==> r.packet.message.body == body
  {
    if header == "" && (status == "OK" || status == "ERROR") then
      Got(if status == "OK" then OK else ERROR)
    else
      var ls := SplitN(header, ":", 2);
      if |ls| != 2 then Got(UnknownPacket(header, []))
      else
        SplitNJoin(header, ":", 2);
        assert header == ls[0] + ":" + ls[1];
        Dispatch(c, status, ls[0], TrimSpace(ls[1]), body)
  }

  /** The tag of a header is everything before its first ':'. */
  lemma SplitTag(tag: string, rest: string)
    requires ':' !in tag
    ensures SplitN(tag + ":" + rest, ":", 2) == [tag, rest]
  {
    ContainsChar(tag, ':');
    assert tag + ":"[..0] == tag;
    SplitFirst(tag, ":", rest);
  }

  /** A header "tag:rest" is dispatched on its tag with the trimmed rest. */
  lemma ParseTagged(c: Codec, status: string, header: string, tag: string, rest: string, body: string)
    requires ':' !in tag && header == tag + ":" + rest
    ensures ParsePacket(c, status, header, body) == Dispatch(c, status, tag, TrimSpace(rest), body)
  {
    SplitTag(tag, rest);
  }

  /** An empty header closed by OK or ERROR is that status. */
  lemma ParseStatusOnly(c: Codec, status: string, body: string)
    requires status == "OK" || status == "ERROR"
    ensures ParsePacket(c, status, "", body) == Got(if status == "OK" then OK else ERROR)
  {
  }

  /** A non-empty header without ':' is an unknown packet named by the whole
      header, with no arguments; so is an empty header with any other
      status. */
  lemma ParseNoColon(c: Codec, status: string, header: string, body: string)
    requires ':' !in header
    requires header != "" || (status != "OK" && status != "ERROR")
    ensures ParsePacket(c, status, header, body) == Got(UnknownPacket(header, []))
  {
    SplitAbsent(header, ':', 2);
  }

  /** The storage nag +ZUSIMR yields no packet, whatever follows the tag. */
  lemma ParseZusimr(c: Codec, status: string, rest: string, body: string)
    ensures ParsePacket(c, status, "+ZUSIMR:" + rest, body) == Nil
  {
    ParseTagged(c, status, "+ZUSIMR:" + rest, "+ZUSIMR", rest, body);
  }

  /** Only +ZUSIMR is dispatched to no packet. */
  lemma DispatchNil(c: Codec, status: string, tag: string, uargs: string, body: string)
    ensures Dispatch(c, status, tag, uargs, body) == Nil <==> tag == "+ZUSIMR"
  {
  }

  /** Only a +ZUSIMR header yields no packet. */
  lemma ParseNilOnlyZusimr(c: Codec, status: string, header: string, body: string)
    ensures ParsePacket(c, status, header, body) == Nil <==> HasPrefix(header, "+ZUSIMR:")
  {
    if HasPrefix(header, "+ZUSIMR:") {
      assert header == "+ZUSIMR:" + header[8..];
      ParseZusimr(c, status, header[8..], body);
    }
    if ParsePacket(c, status, header, body) == Nil {
      var ls := SplitN(header, ":", 2);
      assert |ls| == 2;
      DispatchNil(c, status, ls[0], TrimSpace(ls[1]), body);
      SplitNJoin(header, ":", 2);
      assert header == ls[0] + ":" + ls[1];
    }
  }

  /** Dispatch never produces the body prompt. */
  lemma DispatchNeverPrompt(c: Codec, status: string, tag: string, uargs: string, body: string)
    ensures Dispatch(c, status, tag, uargs, body) != Got(BodyPrompt)
  {
  }

  /** The parser never produces the body prompt: that packet comes only from
      the prompt line itself. */
  lemma ParseNeverPrompt(c: Codec, status: string, header: string, body: string)
    ensures ParsePacket(c, status, header, body) != Got(BodyPrompt)
  {
    if !(header == "" && (status == "OK" || status == "ERROR")) {
      var ls := SplitN(header, ":", 2);
      if |ls| == 2 {
        DispatchNeverPrompt(c, status, ls[0], TrimSpace(ls[1]), body);
      }
    }
  }

  /** +ZPASR: the service status named by the first argument, a panic when
      that is missing or not a string. */
  lemma ParseServiceStatus(c: Codec, status: string, rest: string, body: string)
    ensures var args := c.unquotes(TrimSpace(rest));
            var r := ParsePacket(c, status, "+ZPASR:" + rest, body);
            && (r.Got? <==> |args| >= 1 && args[0].Str?)
            && (r.Got? ==> r.packet == ServiceStatus(args[0].s))
            && (!r.Got? ==> r == Panic)
  {
    ParseTagged(c, status, "+ZPASR:" + rest, "+ZPASR", rest, body);
  }

  /** +ZDONR: the network named by the first argument, a panic when that is
      missing or not a string. */
  lemma ParseNetworkStatus(c: Codec, status: string, rest: string, body: string)
    ensures var args := c.unquotes(TrimSpace(rest));
            var r := ParsePacket(c, status, "+ZDONR:" + rest, body);
            && (r.Got? <==> |args| >= 1 && args[0].Str?)
            && (r.Got? ==> r.packet == NetworkStatus(args[0].s))
            && (!r.Got? ==> r == Panic)
  {
    ParseTagged(c, status, "+ZDONR:" + rest, "+ZDONR", rest, body);
  }

  /** The arguments of a +CMGL record have the kinds the parser asserts. */
  predicate ListedArgs(args: seq<Arg>) {
    |args| >= 5 && args[0].Int? && args[1].Str? && args[2].Str? && args[4].Str?
  }

  lemma DispatchCmgl(c: Codec, status: string, uargs: string, body: string)
    ensures var args := c.unquotes(uargs);
            var r := Dispatch(c, status, "+CMGL", uargs, body);
            && (ListedArgs(args) <==> r.Got?)
            && (!ListedArgs(args) ==> r == Panic)
            && (ListedArgs(args) ==>
                 r.packet == MessagePacket(Message(args[0].i, args[1].s, args[2].s, c.parseTime(args[4].s), body, status != "")))
  {
  }

  /** +CMGL: a listed message when the arguments have the right kinds, a
      panic otherwise. Its index is the first argument, its body the
      accumulated body unchanged, and it is the last of the listing exactly
      when the closing status is non-empty. */
  lemma ParseCmgl(c: Codec, status: string, rest: string, body: string)
    ensures var args := c.unquotes(TrimSpace(rest));
            var r := ParsePacket(c, status, "+CMGL:" + rest, body);
            && (ListedArgs(args) <==> r.Got?)
            && (!ListedArgs(args) ==> r == Panic)
            && (ListedArgs(args) ==>
                 && r.packet.MessagePacket?
                 && r.packet.message.index == args[0].i
                 && r.packet.message.status == args[1].s
                 && r.packet.message.telephone == args[2].s
                 && r.packet.message.timestamp == c.parseTime(args[4].s)
                 && r.packet.message.body == body
                 && (r.packet.message.last <==> status != ""))
  {
    ParseTagged(c, status, "+CMGL:" + rest, "+CMGL", rest, body);
    DispatchCmgl(c, status, TrimSpace(rest), body);
  }

  /** The arguments of a +CMGR reply have the kinds the parser asserts. */
  predicate ReadArgs(args: seq<Arg>) {
    |args| >= 4 && args[0].Str? && args[1].Str? && args[3].Str?
  }

  lemma DispatchCmgr(c: Codec, status: string, uargs: string, body: string)
    ensures var args := c.unquotes(uargs);
            var r := Dispatch(c, status, "+CMGR", uargs, body);
            && (ReadArgs(args) <==> r.Got?)
            && (!ReadArgs(args) ==> r == Panic)
            && (ReadArgs(args) ==>
                 r.packet == MessagePacket(Message(0, args[0].s, args[1].s, c.parseTime(args[3].s), body, false)))
  {
  }

  /** +CMGR: a message with index 0 and not marked last, its body the
      accumulated body; a panic when the arguments have the wrong kinds. */
  lemma ParseCmgr(c: Codec, status: string, rest: string, body: string)
    ensures var args := c.unquotes(TrimSpace(rest));
            var r := ParsePacket(c, status, "+CMGR:" + rest, body);
            && (ReadArgs(args) <==> r.Got?)
            && (!ReadArgs(args) ==> r == Panic)
            && (ReadArgs(args) ==>
                 r.packet == MessagePacket(Message(0, args[0].s, args[1].s, c.parseTime(args[3].s), body, false)))
  {
    ParseTagged(c, status, "+CMGR:" + rest, "+CMGR", rest, body);
    DispatchCmgr(c, status, TrimSpace(rest), body);
  }

  lemma DispatchCmti(c: Codec, status: string, uargs: string, body: string)
    ensures var args := c.unquotes(uargs);
            var r := Dispatch(c, status, "+CMTI", uargs, body);
            && (|args| >= 2 && args[0].Str? && args[1].Int? <==> r.Got?)
            && (r.Got? ==> r.packet == MessageNotification(args[0].s, args[1].i))
            && (!r.Got? ==> r == Panic)
  {
  }

  /** +CMTI: a new-message notification naming the storage and the index. */
  lemma ParseCmti(c: Codec, status: string, rest: string, body: string)
    ensures var args := c.unquotes(TrimSpace(rest));
            var r := ParsePacket(c, status, "+CMTI:" + rest, body);
            && (|args| >= 2 && args[0].Str? && args[1].Int? <==> r.Got?)
            && (r.Got? ==> r.packet == MessageNotification(args[0].s, args[1].i))
            && (!r.Got? ==> r == Panic)
  {
    ParseTagged(c, status, "+CMTI:" + rest, "+CMTI", rest, body);
    DispatchCmti(c, status, TrimSpace(rest), body);
  }

  lemma DispatchCsca(c: Codec, status: string, uargs: string, body: string)
    ensures Dispatch(c, status, "+CSCA", uargs, body) == Got(SMSCAddress(c.unquotes(uargs)))
  {
  }

  /** +CSCA: the service-centre address keeps every argument as given. */
  lemma ParseCsca(c: Codec, status: string, rest: string, body: string)
    ensures ParsePacket(c, status, "+CSCA:" + rest, body) == Got(SMSCAddress(c.unquotes(TrimSpace(rest))))
  {
    ParseTagged(c, status, "+CSCA:" + rest, "+CSCA", rest, body);
    DispatchCsca(c, status, TrimSpace(rest), body);
  }

  /** The +CPMS tag is handed to the +CPMS case. */
  lemma DispatchCpms(c: Codec, status: string, uargs: string, body: string)
    ensures Dispatch(c, status, "+CPMS", uargs, body) == Cpms(c, uargs, c.unquotes(uargs))
  {
  }

  /** The outer parentheses of "(s)" come off whole. */
  lemma Unparenthesize(s: string)
    ensures TrimSuffix(TrimPrefix("(" + s + ")", "("), ")") == s
  {
    assert TrimPrefix("(" + s + ")", "(") == s + ")";
    assert TrimSuffix(s + ")", ")") == s;
  }

  /** "a),(b),(d" splits at its first two separators when neither a nor b
      holds ')'. */
  lemma GroupsSplit(a: string, b: string, d: string)
    requires ')' !in a && ')' !in b
    ensures SplitN(a + "),(" + b + "),(" + d, "),(", 3) == [a, b, d]
  {
    var s := a + "),(" + b + "),(" + d;
    NoSeparatorBefore(a);
    assert s == a + "),(" + (b + "),(" + d);
    SplitFirst(a, "),(", b + "),(" + d);
    NoSeparatorBefore(b);
    SplitFirst(b, "),(", d);
    SplitThree(s, "),(", a, b + "),(" + d, b, d);
  }

  /** The three groups of "(a),(b),(c)", once the outer parentheses are
      taken off, when neither of the first two holds ')'. */
  lemma CpmsGroups(a: string, b: string, d: string)
    requires ')' !in a && ')' !in b
    ensures var uargs := "(" + a + "),(" + b + "),(" + d + ")";
            SplitN(TrimSuffix(TrimPrefix(uargs, "("), ")"), "),(", 3) == [a, b, d]
  {
    var s := a + "),(" + b + "),(" + d;
    assert "(" + a + "),(" + b + "),(" + d + ")" == "(" + s + ")";
    Unparenthesize(s);
    GroupsSplit(a, b, d);
  }

  /** A +CPMS query reply "(a),(b),(c)" lists the three storage groups,
      when neither of the first two holds ')'. */
  lemma DispatchCpmsQuery(c: Codec, status: string, a: string, b: string, d: string, body: string)
    requires ')' !in a && ')' !in b
    ensures Dispatch(c, status, "+CPMS", "(" + a + "),(" + b + "),(" + d + ")", body)
         == Got(StorageAreasPacket(StorageAreas(c.stringsUnquotes(a), c.stringsUnquotes(b), c.stringsUnquotes(d))))
  {
    var uargs := "(" + a + "),(" + b + "),(" + d + ")";
    DispatchCpms(c, status, uargs, body);
    assert HasPrefix(uargs, "(");
    CpmsGroups(a, b, d);
  }

  /** A +CPMS reply starting with "(" panics exactly when it has fewer than
      three groups (the index into the missing group). */
  lemma DispatchCpmsQueryPanics(c: Codec, status: string, uargs: string, body: string)
    requires HasPrefix(uargs, "(")
    ensures var r := Dispatch(c, status, "+CPMS", uargs, body);
            && (r == Panic <==> |CpmsAreas(uargs)| < 3)
            && (|CpmsAreas(uargs)| == 3 ==> r.Got? && r.packet.StorageAreasPacket?)
  {
    DispatchCpms(c, status, uargs, body);
  }

  /** A query reply with a single group and no ')' inside it, "(a)", has
      fewer than three groups and so panics. */
  lemma DispatchCpmsOneGroup(c: Codec, status: string, a: string, body: string)
    requires ')' !in a
    ensures Dispatch(c, status, "+CPMS", "(" + a + ")", body) == Panic
  {
    var uargs := "(" + a + ")";
    Unparenthesize(a);
    assert !Contains(a, "),(") by {
      forall i: nat | i <= |a|
        ensures !OccursAt(a, "),(", i)
      {
        if i + 3 <= |a| {
          assert a[i..i + 3][0] == a[i];
        }
      }
    }
    assert SplitN(a, "),(", 3) == [a];
    assert HasPrefix(uargs, "(");
    DispatchCpmsQueryPanics(c, status, uargs, body);
  }

  /** A piece without ')' cannot hold "),(" even with the separator's first
      two bytes after it. */
  lemma NoSeparatorBefore(a: string)
    requires ')' !in a
    ensures !Contains(a + "),(" [..2], "),(")
  {
    var t := a + "),(" [..2];
    forall i: nat | i <= |t|
      ensures !OccursAt(t, "),(", i)
    {
      if i + 3 <= |t| {
        assert t[i] == a[i];
        assert t[i..i + 3][0] == t[i];
      }
    }
  }

  /** SplitN into three once the first two separators are located. */
  lemma SplitThree(s: string, sep: string, a: string, rest: string, b: string, d: string)
    requires |sep| > 0
    requires SplitN(s, sep, 2) == [a, rest]
    requires SplitN(rest, sep, 2) == [b, d]
    ensures SplitN(s, sep, 3) == [a, b, d]
  {
    var i := Index(s, sep);
    assert i >= 0;
    var x := s[i + |sep|..];
    SplitNCut(s, sep, 2);
    assert SplitN(x, sep, 1) == [x];
    assert [a, rest] == [s[..i]] + [x];
    assert a == ([s[..i]] + [x])[0] == s[..i];
    assert rest == ([s[..i]] + [x])[1] == x;
    SplitNCut(s, sep, 3);
    assert SplitN(s, sep, 3) == [a] + [b, d] == [a, b, d];
  }

  /** A +CPMS set reply whose integer arguments are six, with any string
      arguments among them skipped, is the storage capacity in the order of
      those integers: used and maximum for each of the three areas. */
  lemma DispatchCpmsSet(c: Codec, status: string, uargs: string, body: string,
                        u1: int, m1: int, u2: int, m2: int, u3: int, m3: int)
    requires !HasPrefix(uargs, "(")
    requires Ints(c.unquotes(uargs)) == [u1, m1, u2, m2, u3, m3]
    ensures Dispatch(c, status, "+CPMS", uargs, body) == Got(StorageInfoPacket(StorageInfo(u1, m1, u2, m2, u3, m3)))
  {
    DispatchCpms(c, status, uargs, body);
  }

  /** The common form of the set reply: six integers and nothing else. */
  lemma DispatchCpmsSixInts(c: Codec, status: string, uargs: string, body: string,
                            u1: int, m1: int, u2: int, m2: int, u3: int, m3: int)
    requires !HasPrefix(uargs, "(")
    requires c.unquotes(uargs) == [Int(u1), Int(m1), Int(u2), Int(m2), Int(u3), Int(m3)]
    ensures Dispatch(c, status, "+CPMS", uargs, body) == Got(StorageInfoPacket(StorageInfo(u1, m1, u2, m2, u3, m3)))
  {
    IntsAllInts(c.unquotes(uargs));
    DispatchCpmsSet(c, status, uargs, body, u1, m1, u2, m2, u3, m3);
  }

  /** A +CPMS set reply with any other number of integer arguments falls
      out of the switch: an unknown +CPMS packet carrying all the
      arguments. */
  lemma DispatchCpmsOtherCount(c: Codec, status: string, uargs: string, body: string)
    requires !HasPrefix(uargs, "(") && |Ints(c.unquotes(uargs))| != 6
    ensures Dispatch(c, status, "+CPMS", uargs, body) == Got(UnknownPacket("+CPMS", c.unquotes(uargs)))
  {
    DispatchCpms(c, status, uargs, body);
  }

  lemma DispatchUnknown(c: Codec, status: string, tag: string, uargs: string, body: string)
    requires tag != ""
    requires tag !in {"+ZUSIMR", "+ZPASR", "+ZDONR", "+CMTI", "+CSCA", "+CMGR", "+CMGL", "+CPMS"}
    ensures Dispatch(c, status, tag, uargs, body) == Got(UnknownPacket(tag, c.unquotes(uargs)))
  {
  }

  /** A tag the switch does not know is an unknown packet with its
      arguments. */
  lemma ParseUnknownTag(c: Codec, status: string, tag: string, rest: string, body: string)
    requires ':' !in tag && tag != ""
    requires tag !in {"+ZUSIMR", "+ZPASR", "+ZDONR", "+CMTI", "+CSCA", "+CMGR", "+CMGL", "+CPMS"}
    ensures ParsePacket(c, status, tag + ":" + rest, body) == Got(UnknownPacket(tag, c.unquotes(TrimSpace(rest))))
  {
    ParseTagged(c, status, tag + ":" + rest, tag, rest, body);
    DispatchUnknown(c, status, tag, TrimSpace(rest), body);
  }
}
