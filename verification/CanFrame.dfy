/** The compact text form of CAN frames: printing and parsing. */
module CanFrame {
  import opened Options

  const CAN_MTU := 16
  const CANFD_MTU := 72
  const CAN_MAX_DLEN := 8
  const CANFD_MAX_DLEN := 64
  const CAN_MAX_DLC := 8

  const EFF_FLAG := 0x8000_0000
  const RTR_FLAG := 0x4000_0000
  const ERR_FLAG := 0x2000_0000

  type Byte = x: nat | x < 256

  /** struct canfd_frame; the array data always has 64 bytes. */
  datatype Frame = Frame(id: nat, len: nat, flags: nat, data: seq<Byte>)

  /** The masks of error, extended and standard identifiers. */
  function Low30(id: nat): nat { id % 0x4000_0000 }
  function Low29(id: nat): nat { id % 0x2000_0000 }
  function Low11(id: nat): (r: nat)
    ensures r < 0x800
  {
    id % 0x800
  }

  predicate Eff(id: nat) { (id / EFF_FLAG) % 2 == 1 }
  predicate Rtr(id: nat) { (id / RTR_FLAG) % 2 == 1 }
  predicate Err(id: nat) { (id / ERR_FLAG) % 2 == 1 }

  function Zeros(n: nat): (s: seq<Byte>)
    ensures |s| == n && forall i :: 0 <= i < n ==> s[i] == 0
  {
    seq(n, _ => 0)
  }

  const EMPTY_FRAME := Frame(0, 0, 0, Zeros(64))

  // ---------- characters ----------

  function HexChar(n: nat): (c: char)
    requires n < 16
    ensures c != '.' && c != '#' && c != 'R' && c != 'r' && c != '\0'
  {
    if n < 10 then (n + '0' as int) as char else (n - 10 + 'A' as int) as char
  }

  /** asc2nibble: 16 for anything that is not a hexadecimal digit. */
  function Nibble(c: char): (n: nat)
    ensures n <= 16
  {
    if '0' <= c <= '9' then c as int - '0' as int
    else if 'A' <= c <= 'F' then c as int - 'A' as int + 10
    else if 'a' <= c <= 'f' then c as int - 'a' as int + 10
    else 16
  }

  lemma NibbleBack(n: nat)
    requires n < 16
    ensures Nibble(HexChar(n)) == n
  {
  }

  /** Character i of a C string, 0 at and behind its end. */
  function At(cs: string, i: nat): char {
    if i < |cs| then cs[i] else '\0'
  }

  // ---------- printing ----------

  /** The lowest n hexadecimal digits, highest first. */
  function IdDigits(id: nat, n: nat): (s: string)
    ensures |s| == n && forall i :: 0 <= i < n ==> s[i] != '#'
  {
    if n == 0 then "" else IdDigits(id / 16, n - 1) + [HexChar(id % 16)]
  }

  function HexByte(b: Byte): string {
    [HexChar(b / 16), HexChar(b % 16)]
  }

  /** Data bytes; with sep a '.' stands between them, with lead also before the first. */
  function DataText(d: seq<Byte>, lead: bool, sep: bool): string
    decreases |d|
  {
    if d == [] then "" else (if lead then "." else "") + (HexByte(d[0]) + DataText(d[1..], sep, sep))
  }

  function IdText(id: nat): string {
    if Err(id) then IdDigits(Low30(id), 8) + "#"
    else if Eff(id) then IdDigits(Low29(id), 8) + "#"
    else IdDigits(Low11(id), 3) + "#"
  }

  function Shown(f: Frame, maxdlen: nat): nat {
    if f.len > maxdlen then maxdlen else f.len
  }

  /** sprint_canframe */
  function Print(f: Frame, sep: bool, maxdlen: nat): string
    requires |f.data| == 64 && maxdlen in {CAN_MAX_DLEN, CANFD_MAX_DLEN}
  {
    var d := f.data[..Shown(f, maxdlen)];
    IdText(f.id) +
    if maxdlen == CAN_MAX_DLEN && Rtr(f.id) then
      "R" + if 0 < f.len <= CAN_MAX_DLC then [HexChar(f.len)] else ""
    else if maxdlen == CANFD_MAX_DLEN then
      ['#', HexChar(f.flags % 16)] + DataText(d, sep, sep)
    else DataText(d, false, sep)
  }

  // ---------- parsing ----------

  /** The number written by hexadecimal digits. */
  function IdValue(s: string): Option<nat> {
    if s == "" then Some(0)
    else
      var v :- IdValue(s[..|s| - 1]);
      var n := Nibble(s[|s| - 1]);
      if n > 15 then None else Some(16 * v + n)
  }

  /** The data loop: bytes from index i on, text from position idx on. */
  function ParseData(cs: string, idx: nat, i: nat, max: nat, data: seq<Byte>): Option<(nat, seq<Byte>)>
    requires i <= max <= |data|
    decreases max - i
  {
    if i == max then Some((i, data))
    else
      var k := if At(cs, idx) == '.' then idx + 1 else idx;
      if k >= |cs| then Some((i, data))
      else
        var hi, lo := Nibble(At(cs, k)), Nibble(At(cs, k + 1));
        if hi > 15 || lo > 15 then None
        else ParseData(cs, k + 2, i + 1, max, data[i := 16 * hi + lo])
  }

  /** The identifier with its flags, and the position behind the '#'. */
  function ParseId(cs: string): Option<(nat, nat)> {
    if |cs| < 4 then None
    else if cs[3] == '#' then
      var id :- IdValue(cs[..3]);
      Some((id, 4))
    else if At(cs, 8) == '#' then
      var id :- IdValue(cs[..8]);
      Some((if Err(id) then id else if Eff(id) then id else id + EFF_FLAG, 9))
    else None
  }

  /** parse_canframe: the MTU and the frame, or None for its return value 0. */
  function Parse(cs: string): Option<(nat, Frame)> {
    var (id, idx) :- ParseId(cs);
    if At(cs, idx) == 'R' || At(cs, idx) == 'r' then
      var n := Nibble(At(cs, idx + 1));
      Some((CAN_MTU, Frame(if Rtr(id) then id else id + RTR_FLAG,
                           if At(cs, idx + 1) != '\0' && n <= CAN_MAX_DLC then n else 0, 0, Zeros(64))))
    else if At(cs, idx) == '#' then
      var flags := Nibble(At(cs, idx + 1));
      if flags > 15 then None
      else
        var (len, data) :- ParseData(cs, idx + 2, 0, CANFD_MAX_DLEN, Zeros(64));
        Some((CANFD_MTU, Frame(id, len, flags, data)))
    else
      var (len, data) :- ParseData(cs, idx, 0, CAN_MAX_DLEN, Zeros(64));
      Some((CAN_MTU, Frame(id, len, 0, data)))
  }

  // ---------- the methods ----------

  /** _put_id: digits from position end down to start. */
  method PutId(buf: array<char>, start: nat, endOffset: int, id: nat)
    requires -1 <= endOffset && start + endOffset < buf.Length
    modifies buf
    ensures buf[..start] == old(buf[..start]) && buf[start + endOffset + 1..] == old(buf[start + endOffset + 1..])
    ensures buf[start..start + endOffset + 1] == IdDigits(id, endOffset + 1)
  {
    var k, rest := endOffset, id;
    assert buf[start + k + 1..start + endOffset + 1] == [];
    while k >= 0
      invariant -1 <= k <= endOffset
      invariant buf[..start] == old(buf[..start])
      invariant buf[start + endOffset + 1..] == old(buf[start + endOffset + 1..])
      invariant IdDigits(rest, k + 1) + buf[start + k + 1..start + endOffset + 1] == IdDigits(id, endOffset + 1)
    {
      ghost var tail := buf[start + k + 1..start + endOffset + 1];
      buf[start + k] := HexChar(rest % 16);
      assert buf[start + k..start + endOffset + 1] == [HexChar(rest % 16)] + tail;
      assert IdDigits(rest, k + 1) + tail == IdDigits(rest / 16, k) + ([HexChar(rest % 16)] + tail);
      k := k - 1;
      rest := rest / 16;
    }
  }

  method PutChar(buf: array<char>, offset: nat, c: char, ghost s: string) returns (next: nat)
    requires offset == |s| < buf.Length && buf[..offset] == s
    modifies buf
    ensures next == offset + 1 && buf[..next] == s + [c]
  {
    buf[offset] := c;
    next := offset + 1;
  }

  method PutHexByte(buf: array<char>, offset: nat, b: Byte, ghost s: string) returns (next: nat)
    requires offset == |s| && offset + 2 <= buf.Length && buf[..offset] == s
    modifies buf
    ensures next == offset + 2 && buf[..next] == s + HexByte(b)
  {
    buf[offset] := HexChar(b / 16);
    buf[offset + 1] := HexChar(b % 16);
    next := offset + 2;
  }

  lemma {:induction false} DataTextLength(d: seq<Byte>, lead: bool, sep: bool)
    ensures |DataText(d, lead, sep)| <= 3 * |d|
    decreases |d|
  {
    if d != [] { DataTextLength(d[1..], sep, sep); }
  }

  method PutData(buf: array<char>, offset: nat, d: seq<Byte>, sep: bool, ghost s: string) returns (next: nat)
    requires offset == |s| && offset + 3 * |d| <= buf.Length && buf[..offset] == s
    modifies buf
    ensures next <= offset + 3 * |d| && next <= buf.Length && buf[..next] == s + DataText(d, false, sep)
  {
    next := offset;
    ghost var w := s;
    ghost var all := s + DataText(d, false, sep);
    assert d[0..] == d;
    for i := 0 to |d|
      invariant next == |w| <= offset + 3 * i && next <= buf.Length && buf[..next] == w
      invariant w + DataText(d[i..], false, sep) == all
    {
      assert d[i..][1..] == d[i + 1..];
      ghost var more := DataText(d[i + 1..], sep, sep);
      DataStep(d[i..], w, sep);
      next := PutHexByte(buf, next, d[i], w);
      w := w + HexByte(d[i]);
      if sep && i + 1 < |d| {
        assert more == "." + DataText(d[i + 1..], false, sep);
        next := PutChar(buf, next, '.', w);
        w := w + ".";
      } else {
        assert more == DataText(d[i + 1..], false, sep);
      }
    }
  }

  lemma DataStep(d: seq<Byte>, w: string, sep: bool)
    requires d != []
    ensures w + DataText(d, false, sep) == w + HexByte(d[0]) + DataText(d[1..], sep, sep)
    ensures |d| > 1 && sep ==> w + HexByte(d[0]) + DataText(d[1..], sep, sep) ==
                               w + HexByte(d[0]) + "." + DataText(d[1..], false, sep)
    ensures |d| == 1 || !sep ==> DataText(d[1..], sep, sep) == DataText(d[1..], false, sep)
  {
    hide HexByte;
  }

  lemma DataTextEmpty(sep: bool)
    ensures forall lead :: DataText([], lead, sep) == ""
    ensures forall d: seq<Byte> :: d != [] ==> DataText(d, true, sep) == "." + DataText(d, false, sep)
  {
  }

  method PutIdText(buf: array<char>, id: nat) returns (n: nat)
    requires buf.Length >= 216
    modifies buf
    ensures n <= 9 && buf[..n] == IdText(id)
  {
    hide IdDigits;
    n := if Err(id) || Eff(id) then 8 else 3;
    PutId(buf, 0, n - 1, if Err(id) then Low30(id) else if Eff(id) then Low29(id) else Low11(id));
    ghost var s := buf[0..n];
    assert buf[..n] == s;
    n := PutChar(buf, n, '#', s);
  }

  /** sprint_canframe writes the text and a terminating 0. */
  method SprintCanframe(buf: array<char>, cf: Frame, sep: bool, maxdlen: nat) returns (n: nat)
    requires buf.Length >= 216 && |cf.data| == 64 && maxdlen in {CAN_MAX_DLEN, CANFD_MAX_DLEN}
    modifies buf
    ensures n < buf.Length && buf[..n] == Print(cf, sep, maxdlen) && buf[n] == '\0'
  {
    hide IdDigits, HexChar, DataText;
    DataTextEmpty(sep);
    var len := Shown(cf, maxdlen);
    n := PutIdText(buf, cf.id);
    ghost var s := IdText(cf.id);
    hide IdText, Rtr;
    if maxdlen == CAN_MAX_DLEN && Rtr(cf.id) {
      n := PutChar(buf, n, 'R', s);
      if 0 < cf.len <= CAN_MAX_DLC {
        n := PutChar(buf, n, HexChar(cf.len), s + "R");
      }
    } else {
      ghost var d := cf.data[..len];
      if maxdlen == CANFD_MAX_DLEN {
        n := PutChar(buf, n, '#', s);
        n := PutChar(buf, n, HexChar(cf.flags % 16), s + "#");
        s := s + "#" + [HexChar(cf.flags % 16)];
        if sep && len > 0 {
          n := PutChar(buf, n, '.', s);
          s := s + ".";
        }
      }
      n := PutData(buf, n, cf.data[..len], sep, s);
      assert s + DataText(d, false, sep) == Print(cf, sep, maxdlen);
    }
    buf[n] := '\0';
  }

  /** The identifier loops: i digits read so far. */
  method ReadId(cs: string, n: nat) returns (ok: bool, id: nat)
    requires n <= |cs|
    ensures ok == IdValue(cs[..n]).Some? && (ok ==> id == IdValue(cs[..n]).value)
  {
    ok, id := true, 0;
    var i := 0;
    while i < n && ok
      invariant 0 <= i <= n && ok == IdValue(cs[..i]).Some? && (ok ==> id == IdValue(cs[..i]).value)
    {
      assert cs[..i + 1][..i] == cs[..i];
      var tmp := Nibble(cs[i]);
      if tmp > 15 {
        ok := false;
      } else {
        id := 16 * id + tmp;
      }
      i := i + 1;
    }
    if !ok {
      assert cs[..n][..i] == cs[..i];
      IdValueFails(cs[..n], i);
    }
  }

  lemma {:induction false} IdValueFails(s: string, i: nat)
    requires i <= |s| && IdValue(s[..i]).None?
    ensures IdValue(s).None?
    decreases |s|
  {
    if i < |s| {
      assert s[..|s| - 1][..i] == s[..i];
      IdValueFails(s[..|s| - 1], i);
    } else {
      assert s[..i] == s;
    }
  }

  /** The data loop of parse_canframe. */
  method ReadData(cs: string, start: nat, max: nat) returns (ok: bool, len: nat, data: seq<Byte>)
    requires max <= 64
    ensures var r := ParseData(cs, start, 0, max, Zeros(64));
            ok == r.Some? && (ok ==> (len, data) == r.value)
  {
    data := Zeros(64);
    var i, idx: nat := 0, start;
    ghost var all := ParseData(cs, start, 0, max, data);
    while i < max
      invariant 0 <= i <= max && |data| == 64 && ParseData(cs, idx, i, max, data) == all
    {
      if At(cs, idx) == '.' {
        idx := idx + 1;
      }
      if idx >= |cs| {
        break;
      }
      var hi := Nibble(At(cs, idx));
      if hi > 15 { return false, 0, data; }
      var lo := Nibble(At(cs, idx + 1));
      if lo > 15 { return false, 0, data; }
      idx := idx + 2;
      data := data[i := 16 * hi + lo];
      i := i + 1;
    }
    ok, len := true, i;
  }

  /** parse_canframe; the frame is meaningful when the result is not 0. */
  method ParseCanframe(cs: string) returns (ret: nat, cf: Frame)
    ensures ret == if Parse(cs).Some? then Parse(cs).value.0 else 0
    ensures ret != 0 ==> cf == Parse(cs).value.1
  {
    hide Nibble, IdValue, ParseData, Eff, Err, Rtr;
    cf := EMPTY_FRAME;
    var ok, id, idx: nat := true, 0, 4;
    if |cs| < 4 { return 0, cf; }
    if cs[3] == '#' {
      ok, id := ReadId(cs, 3);
    } else if At(cs, 8) == '#' {
      idx := 9;
      ok, id := ReadId(cs, 8);
      if !Err(id) && !Eff(id) { id := id + EFF_FLAG; }
    } else {
      return 0, cf;
    }
    if !ok { return 0, cf; }
    if At(cs, idx) == 'R' || At(cs, idx) == 'r' {
      id := if Rtr(id) then id else id + RTR_FLAG;
      idx := idx + 1;
      var tmp := Nibble(At(cs, idx));
      return CAN_MTU, Frame(id, if At(cs, idx) != '\0' && tmp <= CAN_MAX_DLC then tmp else 0, 0, Zeros(64));
    }
    var maxdlen, flags := CAN_MAX_DLEN, 0;
    ret := CAN_MTU;
    if At(cs, idx) == '#' {
      maxdlen := CANFD_MAX_DLEN;
      ret := CANFD_MTU;
      flags := Nibble(At(cs, idx + 1));
      if flags > 15 { return 0, cf; }
      idx := idx + 2;
    }
    var len, data;
    ok, len, data := ReadData(cs, idx, maxdlen);
    if !ok { return 0, cf; }
    cf := Frame(id, len, flags, data);
  }

  // ---------- the round trip ----------

  /** Standard, extended or error identifier; an error frame is not extended. */
  predicate NormalId(id: nat) {
    || (id % RTR_FLAG < 0x800 && id < EFF_FLAG)
    || (EFF_FLAG <= id < 0x1_0000_0000 && !Err(id))
    || (Err(id) && id < EFF_FLAG)
  }

  /** A frame that the text form can carry: data bytes behind len are zero, a remote
      request has no data and a CAN FD frame no RTR bit. */
  predicate Normal(f: Frame, maxdlen: nat) {
    && NormalId(f.id) && |f.data| == 64 && f.len <= maxdlen && f.flags < 16
    && (forall k :: f.len <= k < 64 ==> f.data[k] == 0)
    && (maxdlen == CAN_MAX_DLEN ==> f.flags == 0)
    && (Rtr(f.id) ==> maxdlen == CAN_MAX_DLEN && f.data == Zeros(64))
  }

  function Pow16(n: nat): nat { if n == 0 then 1 else 16 * Pow16(n - 1) }

  lemma {:induction false} IdBack(id: nat, n: nat)
    requires id < Pow16(n)
    ensures IdValue(IdDigits(id, n)) == Some(id)
  {
    if n > 0 {
      var s := IdDigits(id, n);
      assert s[..|s| - 1] == IdDigits(id / 16, n - 1);
      IdBack(id / 16, n - 1);
      NibbleBack(id % 16);
    }
  }

  /** Printing and parsing the identifier. */
  lemma IdTextBack(id: nat, rest: string)
    requires NormalId(id)
    ensures var t := IdText(id);
            var bare := if Rtr(id) then id - RTR_FLAG else id;
            && ParseId(t + rest) == Some((bare, |t|))
            && !Rtr(bare)
  {
    var t, cs := IdText(id), IdText(id) + rest;
    assert Pow16(3) == 4096 && Pow16(8) == 0x1_0000_0000;
    IdKinds(id);
    hide Err, Eff, Rtr;
    if Err(id) || Eff(id) {
      var x := if Err(id) then Low30(id) else Low29(id);
      IdBack(x, 8);
      hide IdDigits, IdValue;
      assert cs[..8] == IdDigits(x, 8) && cs[3] == IdDigits(x, 8)[3];
    } else {
      IdBack(Low11(id), 3);
      hide IdDigits, IdValue;
      assert cs[..3] == IdDigits(Low11(id), 3);
    }
  }

  /** What is printed of an identifier, and what it looks like when parsed. */
  lemma IdKinds(id: nat)
    requires NormalId(id)
    ensures var bare := if Rtr(id) then id - RTR_FLAG else id;
            && !Rtr(bare)
            && (Err(id) ==> Low30(id) == bare && Err(bare))
            && (!Err(id) && Eff(id) ==> var x := Low29(id); !Err(x) && !Eff(x) && x + EFF_FLAG == bare)
            && (!Err(id) && !Eff(id) ==> Low11(id) == bare)
  {
    var e := if id >= EFF_FLAG then 1 else 0;
    var r := if id - e * EFF_FLAG >= RTR_FLAG then 1 else 0;
    var x := if id - e * EFF_FLAG - r * RTR_FLAG >= ERR_FLAG then 1 else 0;
    var low := id - e * EFF_FLAG - r * RTR_FLAG - x * ERR_FLAG;
    IdParts(e, r, x, low);
    IdParts(e, 0, x, low);
    IdParts(0, 0, 0, low);
    hide Eff, Err, Rtr;
  }

  /** The three flags of an identifier and its 29 bits. */
  lemma IdParts(e: nat, r: nat, x: nat, low: nat)
    requires e < 2 && r < 2 && x < 2 && low < ERR_FLAG
    ensures var id := e * EFF_FLAG + r * RTR_FLAG + x * ERR_FLAG + low;
            && (Eff(id) <==> e == 1) && (Rtr(id) <==> r == 1) && (Err(id) <==> x == 1)
            && Low30(id) == x * ERR_FLAG + low && Low29(id) == low
  {
    var id := e * EFF_FLAG + r * RTR_FLAG + x * ERR_FLAG + low;
    assert id / ERR_FLAG == 4 * e + 2 * r + x;
    assert id / RTR_FLAG == 2 * e + r;
    assert id / EFF_FLAG == e;
  }

  /** Printed data bytes are parsed back, separated or not. */
  lemma {:induction false} DataBack(cs: string, idx: nat, d: seq<Byte>, lead: bool, sep: bool, i: nat, max: nat, data: seq<Byte>)
    requires idx <= |cs| && cs[idx..] == DataText(d, lead, sep)
    requires i + |d| <= max <= |data|
    ensures ParseData(cs, idx, i, max, data) == Some((i + |d|, data[..i] + d + data[i + |d|..]))
    decreases |d|
  {
    if d == [] {
      assert data[..i] + d + data[i..] == data;
    } else {
      assert DataText(d, lead, sep) + "" == DataText(d, lead, sep);
      ParseStep(cs, idx, d, lead, sep, "", i, max, data);
      Splice(data, i, d);
      hide ParseData, DataText;
      DataBack(cs, if lead then idx + 3 else idx + 2, d[1..], sep, sep, i + 1, max, data[i := d[0]]);
    }
  }

  lemma TextAt(cs: string, idx: nat, s: string, rest: string, j: nat)
    requires idx <= |cs| && cs[idx..] == s + rest && j < |s|
    ensures idx + j < |cs| && cs[idx + j] == s[j] && cs[idx + j + 1..] == s[j + 1..] + rest
  {
    assert cs[idx..][j] == cs[idx + j] && cs[idx..][j + 1..] == cs[idx + j + 1..];
  }

  lemma ParseStep(cs: string, idx: nat, d: seq<Byte>, lead: bool, sep: bool, rest: string,
                  i: nat, max: nat, data: seq<Byte>)
    requires idx <= |cs| && cs[idx..] == DataText(d, lead, sep) + rest && d != []
    requires i + |d| <= max <= |data|
    ensures var k := if lead then idx + 3 else idx + 2;
            && k <= |cs| && cs[k..] == DataText(d[1..], sep, sep) + rest
            && ParseData(cs, idx, i, max, data) == ParseData(cs, k, i + 1, max, data[i := d[0]])
  {
    TextParts(d, lead, sep);
    hide HexChar, Nibble, HexByte, DataText, ParseData;
    var n := if lead then 1 else 0;
    TextAt(cs, idx, DataText(d, lead, sep), rest, 0);
    TextAt(cs, idx, DataText(d, lead, sep), rest, n);
    TextAt(cs, idx, DataText(d, lead, sep), rest, n + 1);
    assert At(cs, idx) == '.' <==> lead;
    ByteRead(cs, idx, lead, d[0], i, max, data);
  }

  lemma ByteRead(cs: string, idx: nat, lead: bool, b: Byte, i: nat, max: nat, data: seq<Byte>)
    requires i < max <= |data| && (At(cs, idx) == '.' <==> lead)
    requires var k := if lead then idx + 1 else idx;
             k + 1 < |cs| && cs[k] == HexChar(b / 16) && cs[k + 1] == HexChar(b % 16)
    ensures ParseData(cs, idx, i, max, data)
         == ParseData(cs, if lead then idx + 3 else idx + 2, i + 1, max, data[i := b])
  {
    NibbleBack(b / 16);
    NibbleBack(b % 16);
    hide HexChar, Nibble;
  }

  lemma Splice(data: seq<Byte>, i: nat, d: seq<Byte>)
    requires d != [] && i + |d| <= |data|
    ensures var e := data[i := d[0]];
            e[..i + 1] + d[1..] + e[i + |d|..] == data[..i] + d + data[i + |d|..]
  {
  }

  lemma TextParts(d: seq<Byte>, lead: bool, sep: bool)
    requires d != []
    ensures var s, k := DataText(d, lead, sep), if lead then 1 else 0;
            && |s| >= k + 2 && (lead ==> s[0] == '.')
            && s[k] == HexChar(d[0] / 16) && s[k + 1] == HexChar(d[0] % 16)
            && s[k + 2..] == DataText(d[1..], sep, sep)
  {
  }

  /** The first data character is neither 'R' nor '#'. */
  lemma FirstChar(d: seq<Byte>, sep: bool, cs: string, idx: nat)
    requires idx <= |cs| && cs[idx..] == DataText(d, false, sep)
    ensures At(cs, idx) != 'R' && At(cs, idx) != 'r' && At(cs, idx) != '#'
  {
    if d != [] { TextParts(d, false, sep); assert cs[idx..][0] == cs[idx]; }
  }

  /** Parsing the printed form gives the frame back, with the MTU of its kind. */
  lemma RoundTrip(f: Frame, sep: bool, maxdlen: nat)
    requires maxdlen in {CAN_MAX_DLEN, CANFD_MAX_DLEN} && Normal(f, maxdlen)
    ensures Parse(Print(f, sep, maxdlen)) == Some((if maxdlen == CAN_MAX_DLEN then CAN_MTU else CANFD_MTU, f))
  {
    if Rtr(f.id) { RemoteBack(f, sep); } else { DataFrameBack(f, sep, maxdlen); }
  }

  lemma RemoteBack(f: Frame, sep: bool)
    requires Normal(f, CAN_MAX_DLEN) && Rtr(f.id)
    ensures Parse(Print(f, sep, CAN_MAX_DLEN)) == Some((CAN_MTU, f))
  {
    var t, cs := IdText(f.id), Print(f, sep, CAN_MAX_DLEN);
    var rest := "R" + if f.len > 0 then [HexChar(f.len)] else "";
    IdTextBack(f.id, rest);
    if f.len > 0 { NibbleBack(f.len); }
    hide IdText, ParseId, Rtr, HexChar, Nibble;
    assert cs == t + rest;
  }

  lemma DataFrameBack(f: Frame, sep: bool, maxdlen: nat)
    requires maxdlen in {CAN_MAX_DLEN, CANFD_MAX_DLEN} && Normal(f, maxdlen) && !Rtr(f.id)
    ensures Parse(Print(f, sep, maxdlen)) == Some((if maxdlen == CAN_MAX_DLEN then CAN_MTU else CANFD_MTU, f))
  {
    var d := f.data[..f.len];
    assert Zeros(64)[..0] + d + Zeros(64)[f.len..] == f.data;
    if maxdlen == CANFD_MAX_DLEN { FdBack(f, sep, d); } else { ClassicBack(f, sep, d); }
  }

  lemma FdBack(f: Frame, sep: bool, d: seq<Byte>)
    requires Normal(f, CANFD_MAX_DLEN) && !Rtr(f.id) && d == f.data[..f.len]
    requires Zeros(64)[..0] + d + Zeros(64)[f.len..] == f.data
    ensures Parse(Print(f, sep, CANFD_MAX_DLEN)) == Some((CANFD_MTU, f))
  {
    hide Zeros, IdText, ParseId, Rtr, HexChar, Nibble, DataText, ParseData, NormalId;
    var t, cs := IdText(f.id), Print(f, sep, CANFD_MAX_DLEN);
    var rest := ['#', HexChar(f.flags)] + DataText(d, sep, sep);
    IdTextBack(f.id, rest);
    NibbleBack(f.flags);
    assert cs == t + rest && cs[|t| + 2..] == DataText(d, sep, sep);
    DataBack(cs, |t| + 2, d, sep, sep, 0, CANFD_MAX_DLEN, Zeros(64));
  }

  lemma ClassicBack(f: Frame, sep: bool, d: seq<Byte>)
    requires Normal(f, CAN_MAX_DLEN) && !Rtr(f.id) && d == f.data[..f.len]
    requires Zeros(64)[..0] + d + Zeros(64)[f.len..] == f.data
    ensures Parse(Print(f, sep, CAN_MAX_DLEN)) == Some((CAN_MTU, f))
  {
    hide Zeros, IdText, ParseId, Rtr, HexChar, Nibble, DataText, ParseData, NormalId;
    var t, cs := IdText(f.id), Print(f, sep, CAN_MAX_DLEN);
    var rest := DataText(d, false, sep);
    IdTextBack(f.id, rest);
    assert cs == t + rest && cs[|t|..] == rest;
    FirstChar(d, sep, cs, |t|);
    DataBack(cs, |t|, d, false, sep, 0, CAN_MAX_DLEN, Zeros(64));
  }

  // ---------- every frame ----------

  /** The bits of an identifier that its kind has, and the RTR bit of a CAN frame. */
  function CarriedId(id: nat, maxdlen: nat): nat {
    (if Err(id) then Low30(id) else if Eff(id) then Low29(id) + EFF_FLAG else Low11(id))
    + (if maxdlen == CAN_MAX_DLEN && Rtr(id) then RTR_FLAG else 0)
  }

  /** What the text carries of any frame: the identifier of its kind, as many bytes
      as fit, and four flags of a CAN FD frame; of a remote request a length up to 8. */
  function Carried(f: Frame, maxdlen: nat): Frame
    requires |f.data| == 64 && maxdlen in {CAN_MAX_DLEN, CANFD_MAX_DLEN}
  {
    var rtr := maxdlen == CAN_MAX_DLEN && Rtr(f.id);
    var n := if rtr && f.len > CAN_MAX_DLC then 0 else Shown(f, maxdlen);
    Frame(CarriedId(f.id, maxdlen), n, if maxdlen == CAN_MAX_DLEN then 0 else f.flags % 16,
          if rtr then Zeros(64) else f.data[..n] + Zeros(64 - n))
  }

  lemma CarriedIdIs(id: nat, maxdlen: nat)
    requires id < 0x1_0000_0000
    ensures var c := CarriedId(id, maxdlen);
            && NormalId(c) && IdText(c) == IdText(id)
            && (Rtr(c) <==> maxdlen == CAN_MAX_DLEN && Rtr(id))
  {
    hide Eff, Err, Rtr, IdDigits, Low30, Low29, Low11;
    var e := if id >= EFF_FLAG then 1 else 0;
    var r := if id - e * EFF_FLAG >= RTR_FLAG then 1 else 0;
    var x := if id - e * EFF_FLAG - r * RTR_FLAG >= ERR_FLAG then 1 else 0;
    var low := id - e * EFF_FLAG - r * RTR_FLAG - x * ERR_FLAG;
    var r2 := if maxdlen == CAN_MAX_DLEN then r else 0;
    IdParts(e, r, x, low);
    StandardBits(e, r, x, low);
    if x == 1 {
      IdParts(0, r2, 1, low);
    } else if e == 1 {
      IdParts(1, r2, 0, low);
    } else {
      IdParts(0, r2, 0, Low11(low));
      StandardBits(0, r2, 0, Low11(low));
      Low11Twice(low);
    }
  }

  lemma Low11Twice(id: nat)
    ensures Low11(Low11(id)) == Low11(id)
    ensures Low11(id) % RTR_FLAG == Low11(id) && (Low11(id) + RTR_FLAG) % RTR_FLAG == Low11(id)
  {
  }

  lemma StandardBits(e: nat, r: nat, x: nat, low: nat)
    requires e < 2 && r < 2 && x < 2 && low < ERR_FLAG
    ensures Low11(e * EFF_FLAG + r * RTR_FLAG + x * ERR_FLAG + low) == Low11(low)
  {
    var k := 0x10_0000 * e + 0x8_0000 * r + 0x4_0000 * x;
    assert e * EFF_FLAG + r * RTR_FLAG + x * ERR_FLAG + low == 0x800 * k + low;
  }

  lemma CarriedIs(f: Frame, sep: bool, maxdlen: nat)
    requires |f.data| == 64 && f.id < 0x1_0000_0000 && maxdlen in {CAN_MAX_DLEN, CANFD_MAX_DLEN}
    ensures Normal(Carried(f, maxdlen), maxdlen)
    ensures Print(Carried(f, maxdlen), sep, maxdlen) == Print(f, sep, maxdlen)
  {
    hide NormalId, IdText, CarriedId, DataText, Rtr, HexChar;
    CarriedIdIs(f.id, maxdlen);
    var g := Carried(f, maxdlen);
    if !Rtr(g.id) {
      assert g.data[..g.len] == f.data[..Shown(f, maxdlen)];
    }
  }

  /** Parsing the printed form of any frame gives what the text carries of it; that
      is the frame itself if and only if it is normal. */
  lemma ReadsBack(f: Frame, sep: bool, maxdlen: nat)
    requires |f.data| == 64 && f.id < 0x1_0000_0000 && maxdlen in {CAN_MAX_DLEN, CANFD_MAX_DLEN}
    ensures Parse(Print(f, sep, maxdlen))
         == Some((if maxdlen == CAN_MAX_DLEN then CAN_MTU else CANFD_MTU, Carried(f, maxdlen)))
    ensures Carried(f, maxdlen) == f <==> Normal(f, maxdlen)
  {
    hide Print, Parse, Normal, Carried;
    CarriedIs(f, sep, maxdlen);
    RoundTrip(Carried(f, maxdlen), sep, maxdlen);
    if Normal(f, maxdlen) { RoundTrip(f, sep, maxdlen); }
  }

  /** Hence the text determines the frame and its kind, whatever the separators. */
  lemma PrintIsInjective(f: Frame, g: Frame, sepF: bool, sepG: bool, maxF: nat, maxG: nat)
    requires maxF in {CAN_MAX_DLEN, CANFD_MAX_DLEN} && maxG in {CAN_MAX_DLEN, CANFD_MAX_DLEN}
    requires Normal(f, maxF) && Normal(g, maxG)
    ensures Print(f, sepF, maxF) == Print(g, sepG, maxG) ==> f == g && maxF == maxG
  {
    hide Print, Parse, Normal;
    RoundTrip(f, sepF, maxF);
    RoundTrip(g, sepG, maxG);
  }

  // ---------- texts that were not printed ----------

  /** The digits are these, of either case, and nothing else is one. */
  predicate IsHex(c: char) { c in "0123456789ABCDEFabcdef" }

  lemma NibbleIs(n: nat)
    requires n < 16
    ensures HexChar(n) == "0123456789ABCDEF"[n]
    ensures Nibble("0123456789ABCDEF"[n]) == n && Nibble("0123456789abcdef"[n]) == n
  {
  }

  lemma NoNibble(c: char)
    ensures Nibble(c) <= 15 <==> IsHex(c)
  {
    if Nibble(c) <= 15 { DigitIs(c); }
  }

  lemma DigitIs(c: char)
    requires Nibble(c) <= 15
    ensures c == "0123456789ABCDEFabcdef"[if 'a' <= c then Nibble(c) + 6 else Nibble(c)]
  {
  }

  function LowerChar(c: char): char {
    if 'A' <= c <= 'Z' then (c as int + 32) as char else c
  }

  function Lower(s: string): (t: string)
    ensures |t| == |s|
  {
    seq(|s|, i requires 0 <= i < |s| => LowerChar(s[i]))
  }

  lemma LowerNibble(c: char)
    ensures Nibble(LowerChar(c)) == Nibble(c)
  {
  }

  /** The marks of the text form stay what they are. */
  lemma LowerMarks(c: char)
    ensures LowerChar(c) == '.' <==> c == '.'
    ensures LowerChar(c) == '#' <==> c == '#'
    ensures LowerChar(c) == '\0' <==> c == '\0'
    ensures LowerChar(c) == 'R' || LowerChar(c) == 'r' <==> c == 'R' || c == 'r'
  {
  }

  lemma LowerAt(cs: string, i: nat)
    ensures At(Lower(cs), i) == LowerChar(At(cs, i)) && Nibble(At(Lower(cs), i)) == Nibble(At(cs, i))
  {
    LowerNibble(At(cs, i));
  }

  lemma {:induction false} LowerId(s: string)
    ensures IdValue(Lower(s)) == IdValue(s)
    decreases |s|
  {
    if s != "" {
      LowerId(s[..|s| - 1]);
      assert Lower(s)[..|s| - 1] == Lower(s[..|s| - 1]);
      LowerNibble(s[|s| - 1]);
    }
  }

  lemma {:induction false} LowerData(cs: string, idx: nat, i: nat, max: nat, data: seq<Byte>)
    requires i <= max <= |data|
    ensures ParseData(Lower(cs), idx, i, max, data) == ParseData(cs, idx, i, max, data)
    decreases max - i
  {
    LowerMarks(At(cs, idx));
    LowerAt(cs, idx);
    var k := if At(cs, idx) == '.' then idx + 1 else idx;
    hide Lower, LowerChar, Nibble;
    LowerAt(cs, k);
    LowerAt(cs, k + 1);
    if i < max && Nibble(At(cs, k)) <= 15 && Nibble(At(cs, k + 1)) <= 15 {
      LowerData(cs, k + 2, i + 1, max, data[i := 16 * Nibble(At(cs, k)) + Nibble(At(cs, k + 1))]);
    }
  }

  lemma LowerParseId(cs: string)
    ensures ParseId(Lower(cs)) == ParseId(cs)
  {
    if |cs| >= 4 {
      LowerAt(cs, 8);
      assert Lower(cs)[..3] == Lower(cs[..3]);
      LowerId(cs[..3]);
      if |cs| >= 8 {
        assert Lower(cs)[..8] == Lower(cs[..8]);
        LowerId(cs[..8]);
      }
      hide IdValue, Nibble, Eff, Err;
    }
  }

  /** Small and capital letters mean the same, in every text. */
  lemma CaseBlind(cs: string)
    ensures Parse(Lower(cs)) == Parse(cs)
  {
    LowerParseId(cs);
    if ParseId(cs).Some? {
      var idx := ParseId(cs).value.1;
      LowerAt(cs, idx);
      LowerMarks(At(cs, idx));
      LowerAt(cs, idx + 1);
      LowerMarks(At(cs, idx + 1));
      LowerData(cs, idx, 0, CAN_MAX_DLEN, Zeros(64));
      LowerData(cs, idx + 2, 0, CANFD_MAX_DLEN, Zeros(64));
    }
    hide ParseId, ParseData, Lower, LowerChar, At, Nibble, Rtr, Zeros;
  }

  predicate AllHex(s: string) { forall k :: 0 <= k < |s| ==> IsHex(s[k]) }

  lemma {:induction false} IdValueIff(s: string)
    ensures IdValue(s).Some? <==> AllHex(s)
    decreases |s|
  {
    if s != "" {
      var n := |s| - 1;
      IdValueIff(s[..n]);
      NoNibble(s[n]);
      assert s == s[..n] + [s[n]];
      hide Nibble, IsHex;
    }
  }

  /** An identifier is three digits, or eight, and a '#'. */
  lemma IdIff(cs: string)
    ensures ParseId(cs).Some? <==>
            || (|cs| >= 4 && cs[3] == '#' && AllHex(cs[..3]))
            || (|cs| >= 9 && cs[3] != '#' && cs[8] == '#' && AllHex(cs[..8]))
    ensures ParseId(cs).None? ==> Parse(cs) == None
  {
    if |cs| >= 4 { IdValueIff(cs[..3]); }
    if |cs| >= 9 { IdValueIff(cs[..8]); }
    hide IdValue, AllHex, Err, Eff;
  }

  /** What follows data bytes and is not a byte: a character that is no digit, or a
      single digit. */
  predicate BadTail(t: string) {
    t != "" && t[0] != '.' && (!IsHex(t[0]) || |t| == 1 || !IsHex(t[1]))
  }

  lemma TailRefused(cs: string, idx: nat, i: nat, max: nat, data: seq<Byte>)
    requires i < max <= |data| && idx <= |cs| && BadTail(cs[idx..])
    ensures ParseData(cs, idx, i, max, data) == None
  {
    NoNibble(At(cs, idx));
    NoNibble(At(cs, idx + 1));
    hide Nibble, IsHex;
    assert cs[idx..][0] == cs[idx];
    assert |cs[idx..]| > 1 ==> cs[idx..][1] == cs[idx + 1];
    assert !IsHex('\0') by { NoNibble('\0'); }
  }

  lemma {:induction false} BadDataRefused(cs: string, idx: nat, d: seq<Byte>, lead: bool, sep: bool, t: string,
                                          i: nat, max: nat, data: seq<Byte>)
    requires idx <= |cs| && cs[idx..] == DataText(d, lead, sep) + t && BadTail(t)
    requires i + |d| < max <= |data|
    ensures ParseData(cs, idx, i, max, data) == None
    decreases |d|
  {
    if d == [] {
      assert DataText(d, lead, sep) + t == t;
      TailRefused(cs, idx, i, max, data);
    } else {
      ParseStep(cs, idx, d, lead, sep, t, i, max, data);
      hide ParseData, DataText, BadTail;
      BadDataRefused(cs, if lead then idx + 3 else idx + 2, d[1..], sep, sep, t, i + 1, max, data[i := d[0]]);
    }
  }

  /** Behind printed data bytes that do not fill the frame, such a tail makes the
      whole text invalid, for CAN and for CAN FD frames. */
  lemma BadTextRefused(cs: string, id: nat, idx: nat, d: seq<Byte>, lead: bool, sep: bool, t: string)
    requires ParseId(cs) == Some((id, idx)) && BadTail(t)
    ensures (&& idx <= |cs| && cs[idx..] == DataText(d, lead, sep) + t && |d| < CAN_MAX_DLEN
             && At(cs, idx) != 'R' && At(cs, idx) != 'r' && At(cs, idx) != '#') ==> Parse(cs) == None
    ensures (&& idx + 2 <= |cs| && cs[idx] == '#' && cs[idx + 2..] == DataText(d, lead, sep) + t
             && |d| < CANFD_MAX_DLEN) ==> Parse(cs) == None
  {
    hide ParseId, ParseData, DataText, BadTail, Nibble, Zeros, Rtr;
    if idx <= |cs| && cs[idx..] == DataText(d, lead, sep) + t && |d| < CAN_MAX_DLEN {
      BadDataRefused(cs, idx, d, lead, sep, t, 0, CAN_MAX_DLEN, Zeros(64));
    }
    if idx + 2 <= |cs| && cs[idx + 2..] == DataText(d, lead, sep) + t && |d| < CANFD_MAX_DLEN {
      BadDataRefused(cs, idx + 2, d, lead, sep, t, 0, CANFD_MAX_DLEN, Zeros(64));
    }
  }
}
