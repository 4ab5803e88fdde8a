/** makeWasmFunc: the bytes of the one-import, one-export module it assembles, and a decoder for the
    part of the binary format (sections 5.2 to 5.5 of the WebAssembly Core Specification 1.0) that
    such a module uses: custom, type, import and export sections, function imports and exports. */
module WasmFunc {
  import opened Common
  import opened GuestMemory

  datatype ValType = I32 | I64 | F32 | F64
  datatype FuncType = FuncType(params: seq<ValType>, results: seq<ValType>)
  datatype Import = Import(moduleName: seq<byte>, field: seq<byte>, typeIdx: nat)
  datatype Export = Export(name: seq<byte>, funcIdx: nat)
  datatype Module = Module(types: seq<FuncType>, imports: seq<Import>, exports: seq<Export>)

  const MAGIC: seq<byte> := [0x00, 0x61, 0x73, 0x6d, 0x01, 0x00, 0x00, 0x00]

  // ---- the encoder ---------------------------------------------------------

  function Code(t: ValType): byte {
    match t
    case I64 => 0x7e
    case F32 => 0x7d
    case F64 => 0x7c
    case I32 => 0x7f
  }

  function Codes(ts: seq<ValType>): (bs: seq<byte>)
    ensures |bs| == |ts|
  {
    if |ts| == 0 then [] else [Code(ts[0])] + Codes(ts[1..])
  }

  /** A number stored into a Uint8Array keeps its low eight bits. */
  function ToUint8(n: nat): byte { n % 0x100 }

  function Counted(ts: seq<ValType>): seq<byte> { [ToUint8(|ts|)] + Codes(ts) }

  function TypeBytes(f: FuncType): seq<byte> { [0x60] + (Counted(f.params) + Counted(f.results)) }

  function Section(id: byte, body: seq<byte>): seq<byte> {
    [id, ToUint8(|body|)] + body
  }

  function TypeBody(f: FuncType): seq<byte> { [1] + TypeBytes(f) }

  const IMPORT_BODY: seq<byte> := [1, 1, 0x68, 1, 0x66, 0, 0]
  const EXPORT_BODY: seq<byte> := [1, 1, 0x77, 0, 0]

  function Tail(): seq<byte> { Section(2, IMPORT_BODY) + Section(7, EXPORT_BODY) }

  function Encode(f: FuncType): seq<byte> {
    MAGIC + Section(1, TypeBody(f)) + Tail()
  }

  /** The module makeWasmFunc means to build: one type, import "h"."f" of it, export of function 0 as "w". */
  function Intended(f: FuncType): Module {
    Module([f], [Import([0x68], [0x66], 0)], [Export([0x77], 0)])
  }

  // ---- the decoder -----------------------------------------------------------

  datatype Parsed<T> = Malformed | Parsed(val: T, rest: seq<byte>)

  /** Section 5.2.2: an unsigned LEB128 number of at most `bits` bits. */
  function Unsigned(bs: seq<byte>, bits: nat): (r: Parsed<nat>)
    ensures r.Parsed? ==> |r.rest| < |bs|
    decreases |bs|
  {
    if |bs| == 0 then Malformed
    else if bs[0] < 0x80 then
      if bits >= 7 || bs[0] < Pow2(bits) then Parsed(bs[0], bs[1..]) else Malformed
    else if bits <= 7 then Malformed
    else
      match Unsigned(bs[1..], bits - 7)
      case Malformed => Malformed
      case Parsed(m, rest) => Parsed(0x80 * m + (bs[0] - 0x80), rest)
  }

  function Pow2(n: nat): nat { if n == 0 then 1 else 2 * Pow2(n - 1) }

  function U32(bs: seq<byte>): Parsed<nat> { Unsigned(bs, 32) }

  /** Section 5.3.1, n value types in a row. */
  function ValTypes(bs: seq<byte>, n: nat): (r: Parsed<seq<ValType>>)
    ensures r.Parsed? ==> |r.val| == n && |bs| == |r.rest| + n
    decreases n
  {
    if n == 0 then Parsed([], bs)
    else if |bs| == 0 || !(0x7c <= bs[0] <= 0x7f) then Malformed
    else
      var t := if bs[0] == 0x7f then I32 else if bs[0] == 0x7e then I64 else if bs[0] == 0x7d then F32 else F64;
      match ValTypes(bs[1..], n - 1)
      case Malformed => Malformed
      case Parsed(ts, rest) => Parsed([t] + ts, rest)
  }

  function ValVec(bs: seq<byte>): (r: Parsed<seq<ValType>>)
    ensures r.Parsed? ==> |bs| >= |r.rest| + |r.val| + 1
  {
    match U32(bs)
    case Malformed => Malformed
    case Parsed(n, rest) => ValTypes(rest, n)
  }

  /** Section 5.3.3. */
  function FuncTypeOf(bs: seq<byte>): (r: Parsed<FuncType>)
    ensures r.Parsed? ==> |bs| >= |r.rest| + |r.val.params| + |r.val.results| + 3
  {
    if |bs| == 0 || bs[0] != 0x60 then Malformed
    else
      match ValVec(bs[1..])
      case Malformed => Malformed
      case Parsed(ps, rest) =>
        match ValVec(rest)
        case Malformed => Malformed
        case Parsed(rs, rest') => Parsed(FuncType(ps, rs), rest')
  }

  function FuncTypes(bs: seq<byte>, n: nat): (r: Parsed<seq<FuncType>>)
    ensures r.Parsed? ==> |r.val| == n
    decreases n
  {
    if n == 0 then Parsed([], bs)
    else
      match FuncTypeOf(bs)
      case Malformed => Malformed
      case Parsed(f, rest) =>
        match FuncTypes(rest, n - 1)
        case Malformed => Malformed
        case Parsed(fs, rest') => Parsed([f] + fs, rest')
  }

  function Name(bs: seq<byte>): (r: Parsed<seq<byte>>)
    ensures r.Parsed? ==> |r.rest| < |bs|
  {
    match U32(bs)
    case Malformed => Malformed
    case Parsed(n, rest) => if n <= |rest| then Parsed(rest[..n], rest[n..]) else Malformed
  }

  /** A function descriptor: kind byte 0 and an index. */
  function FuncRef(bs: seq<byte>): Parsed<nat> {
    if |bs| == 0 || bs[0] != 0 then Malformed else U32(bs[1..])
  }

  function Imports(bs: seq<byte>, n: nat): Parsed<seq<Import>>
    decreases n
  {
    if n == 0 then Parsed([], bs)
    else
      match Name(bs)
      case Malformed => Malformed
      case Parsed(m, r1) =>
        match Name(r1)
        case Malformed => Malformed
        case Parsed(f, r2) =>
          match FuncRef(r2)
          case Malformed => Malformed
          case Parsed(i, r3) =>
            match Imports(r3, n - 1)
            case Malformed => Malformed
            case Parsed(more, r4) => Parsed([Import(m, f, i)] + more, r4)
  }

  function Exports(bs: seq<byte>, n: nat): Parsed<seq<Export>>
    decreases n
  {
    if n == 0 then Parsed([], bs)
    else
      match Name(bs)
      case Malformed => Malformed
      case Parsed(m, r1) =>
        match FuncRef(r1)
        case Malformed => Malformed
        case Parsed(i, r2) =>
          match Exports(r2, n - 1)
          case Malformed => Malformed
          case Parsed(es, r3) => Parsed([Export(m, i)] + es, r3)
  }

  /** The content of one section, which must fill its declared size exactly. */
  function InSection(id: byte, body: seq<byte>, m: Module): Option<Module> {
    match U32(body)
    case Malformed => None
    case Parsed(n, rest) =>
      if id == 1 then
        match FuncTypes(rest, n)
        case Malformed => None
        case Parsed(fs, r) => if |r| == 0 then Some(m.(types := fs)) else None
      else if id == 2 then
        match Imports(rest, n)
        case Malformed => None
        case Parsed(imps, r) => if |r| == 0 then Some(m.(imports := imps)) else None
      else if id == 7 then
        match Exports(rest, n)
        case Malformed => None
        case Parsed(es, r) => if |r| == 0 then Some(m.(exports := es)) else None
      else None
  }

  /** Section 5.5.2: id, size, content; non-custom sections in increasing order, each at most once. */
  function Sections(bs: seq<byte>, last: nat, m: Module): Option<Module>
    decreases |bs|
  {
    if |bs| == 0 then Some(m)
    else
      match U32(bs[1..])
      case Malformed => None
      case Parsed(size, rest) =>
        if size > |rest| then None
        else if bs[0] == 0 then Sections(rest[size..], last, m)
        else if bs[0] <= last then None
        else
          match InSection(bs[0], rest[..size], m)
          case None => None
          case Some(m') => Sections(rest[size..], bs[0], m')
  }

  function Decode(bs: seq<byte>): Option<Module> {
    if |bs| < 8 || bs[..8] != MAGIC then None else Sections(bs[8..], 0, Module([], [], []))
  }

  // ---- decoding what was encoded -----------------------------------------------

  lemma Single<T>(x: T)
    ensures [x] + [] == [x]
  {
  }

  lemma DropOne<T>(x: T, s: seq<T>, t: seq<T>)
    ensures ([x] + s + t)[0] == x && ([x] + s + t)[1..] == s + t
  {
  }

  lemma DropTwo<T>(x: T, y: T, s: seq<T>, t: seq<T>)
    ensures ([x, y] + s + t)[0] == x && ([x, y] + s + t)[1..][0] == y && ([x, y] + s + t)[1..][1..] == s + t
  {
  }

  lemma SplitAt<T>(s: seq<T>, t: seq<T>)
    ensures (s + t)[..|s|] == s && (s + t)[|s|..] == t
  {
  }

  lemma SmallUnsigned(bs: seq<byte>)
    requires |bs| > 0 && bs[0] < 0x80
    ensures U32(bs) == Parsed(bs[0], bs[1..])
  {
  }

  lemma {:induction false} CodesDecode(ts: seq<ValType>, rest: seq<byte>)
    ensures ValTypes(Codes(ts) + rest, |ts|) == Parsed(ts, rest)
  {
    if |ts| > 0 {
      CodesDecode(ts[1..], rest);
      assert (Codes(ts) + rest)[1..] == Codes(ts[1..]) + rest;
      assert [ts[0]] + ts[1..] == ts;
    } else {
      assert Codes(ts) + rest == rest;
    }
  }

  lemma ValVecDecodes(ts: seq<ValType>, rest: seq<byte>)
    requires |ts| < 0x80
    ensures ValVec(Counted(ts) + rest) == Parsed(ts, rest)
  {
    DropOne(ToUint8(|ts|), Codes(ts), rest);
    CodesDecode(ts, rest);
    ValVecStep(Counted(ts) + rest, |ts|);
  }

  lemma ValVecStep(bs: seq<byte>, n: nat)
    requires |bs| > 0 && bs[0] == n < 0x80
    ensures ValVec(bs) == ValTypes(bs[1..], n)
  {
  }

  lemma FuncTypeDecodes(f: FuncType)
    requires |f.params| < 0x80 && |f.results| < 0x80
    ensures FuncTypeOf(TypeBytes(f)) == Parsed(f, [])
  {
    assert TypeBytes(f)[1..] == Counted(f.params) + Counted(f.results);
    ValVecDecodes(f.params, Counted(f.results));
    assert Counted(f.results) == Counted(f.results) + [];
    ValVecDecodes(f.results, []);
  }

  lemma TypeSectionDecodes(f: FuncType, m: Module)
    requires |f.params| < 0x80 && |f.results| < 0x80
    ensures InSection(1, TypeBody(f), m) == Some(m.(types := [f]))
  {
    SmallUnsigned(TypeBody(f));
    assert TypeBody(f)[1..] == TypeBytes(f);
    FuncTypeDecodes(f);
    assert FuncTypes([], 0) == Parsed([], []);
    Single(f);
    assert FuncTypes(TypeBytes(f), 1) == Parsed([f], []);
  }

  lemma NameDecodes(c: byte, rest: seq<byte>)
    ensures Name([1, c] + rest) == Parsed([c], rest)
  {
    var bs := [1, c] + rest;
    SmallUnsigned(bs);
    assert bs[1..][..1] == [c] && bs[1..][1..] == rest;
  }

  lemma FuncRefDecodes(rest: seq<byte>)
    ensures FuncRef([0, 0] + rest) == Parsed(0, rest)
  {
  }

  lemma ImportSectionDecodes(m: Module)
    ensures InSection(2, IMPORT_BODY, m) == Some(m.(imports := [Import([0x68], [0x66], 0)]))
  {
    var b1 := [1, 0x68] + ([1, 0x66] + ([0, 0] + []));
    SmallUnsigned(IMPORT_BODY);
    assert IMPORT_BODY[1..] == b1;
    NameDecodes(0x68, [1, 0x66] + ([0, 0] + []));
    NameDecodes(0x66, [0, 0] + []);
    FuncRefDecodes([]);
    assert Imports([], 0) == Parsed([], []);
    Single(Import([0x68], [0x66], 0));
    assert Imports(b1, 1) == Parsed([Import([0x68], [0x66], 0)], []);
  }

  lemma ExportSectionDecodes(m: Module)
    ensures InSection(7, EXPORT_BODY, m) == Some(m.(exports := [Export([0x77], 0)]))
  {
    var b1 := [1, 0x77] + ([0, 0] + []);
    SmallUnsigned(EXPORT_BODY);
    assert EXPORT_BODY[1..] == b1;
    NameDecodes(0x77, [0, 0] + []);
    FuncRefDecodes([]);
    assert Exports([], 0) == Parsed([], []);
    Single(Export([0x77], 0));
    assert Exports(b1, 1) == Parsed([Export([0x77], 0)], []);
  }

  /** A section at the front, taken apart. */
  predicate StartsWith(bs: seq<byte>, id: byte, body: seq<byte>, rest: seq<byte>) {
    && |bs| >= 2 && bs[0] == id && bs[1..][0] == |body| < 0x80 && |bs[1..][1..]| == |body| + |rest|
    && bs[1..][1..][..|body|] == body && bs[1..][1..][|body|..] == rest
  }

  lemma SectionUnfold(bs: seq<byte>, id: byte, body: seq<byte>, rest: seq<byte>, last: nat, m: Module)
    requires StartsWith(bs, id, body, rest) && last < id
    ensures Sections(bs, last, m)
         == match InSection(id, body, m) case None => None case Some(m') => Sections(rest, id, m')
  {
    SmallUnsigned(bs[1..]);
  }

  lemma SectionStarts(id: byte, body: seq<byte>, rest: seq<byte>)
    requires |body| < 0x80
    ensures StartsWith(Section(id, body) + rest, id, body, rest)
  {
    DropTwo(id, ToUint8(|body|), body, rest);
    SplitAt(body, rest);
  }

  /** One section at the front, its size fitting one LEB128 byte. */
  lemma SectionStep(id: byte, body: seq<byte>, rest: seq<byte>, last: nat, m: Module)
    requires |body| < 0x80 && last < id
    ensures Sections(Section(id, body) + rest, last, m)
         == match InSection(id, body, m) case None => None case Some(m') => Sections(rest, id, m')
  {
    SectionStarts(id, body, rest);
    SectionUnfold(Section(id, body) + rest, id, body, rest, last, m);
  }

  lemma TailDecodes(m: Module)
    ensures Sections(Tail(), 1, m)
         == Some(m.(imports := [Import([0x68], [0x66], 0)], exports := [Export([0x77], 0)]))
  {
    SectionStep(2, IMPORT_BODY, Section(7, EXPORT_BODY), 1, m);
    ImportSectionDecodes(m);
    var m2 := m.(imports := [Import([0x68], [0x66], 0)]);
    assert Section(7, EXPORT_BODY) == Section(7, EXPORT_BODY) + [];
    SectionStep(7, EXPORT_BODY, [], 2, m2);
    ExportSectionDecodes(m2);
  }

  // ---- signatures that are too long -----------------------------------------------

  /** After the type section, no later section can change the types. */
  lemma {:induction false} TypesStay(bs: seq<byte>, last: nat, m: Module)
    requires last >= 1
    ensures Sections(bs, last, m).Some? ==> Sections(bs, last, m).value.types == m.types
    decreases |bs|
  {
    if |bs| > 0 {
      match U32(bs[1..])
      case Malformed =>
      case Parsed(size, rest) =>
        if size <= |rest| {
          if bs[0] == 0 {
            TypesStay(rest[size..], last, m);
          } else if bs[0] > last {
            match InSection(bs[0], rest[..size], m)
            case None =>
            case Some(m') => TypesStay(rest[size..], bs[0], m');
          }
        }
    }
  }

  /** What follows the magic number: the type section's id, its size byte, and the rest. */
  lemma FirstSection(f: FuncType)
    ensures var bs := Section(1, TypeBody(f)) + Tail();
      && Decode(Encode(f)) == Sections(bs, 0, Module([], [], []))
      && bs[0] == 1 && bs[1..][0] == ToUint8(|TypeBody(f)|) && bs[1..][1..] == TypeBody(f) + Tail()
      && |TypeBody(f)| == |f.params| + |f.results| + 4
  {
    var bs := Section(1, TypeBody(f)) + Tail();
    assert Encode(f) == MAGIC + bs;
    SplitAt(MAGIC, bs);
    DropTwo(1, ToUint8(|TypeBody(f)|), TypeBody(f), Tail());
  }

  /** A size byte with its high bit set swallows the type count: the decoder then reads 0x60 as the count. */
  lemma HighSizeByte(f: FuncType)
    requires ToUint8(|TypeBody(f)|) >= 0x80
    ensures Decode(Encode(f)) != Some(Intended(f))
  {
    FirstSection(f);
    var bs := Section(1, TypeBody(f)) + Tail();
    var b, body := ToUint8(|TypeBody(f)|), TypeBytes(f) + Tail();
    DropOne(1, TypeBytes(f), Tail());
    TwoByteSize(bs[1..], body);
    if b <= |body| {
      var content := body[..b];
      assert content[0] == 0x60;
      SmallUnsigned(content);
      match InSection(1, content, Module([], [], []))
      case None =>
      case Some(m') =>
        assert |m'.types| == 0x60;
        TypesStay(body[b..], 1, m');
    }
  }

  /** A continued size byte followed by 1 is the size the byte alone would be as a plain number. */
  lemma TwoByteSize(bs: seq<byte>, rest: seq<byte>)
    requires |bs| >= 2 && bs[0] >= 0x80 && bs[1..][0] == 1 && bs[1..][1..] == rest
    ensures U32(bs) == Parsed(bs[0], rest)
  {
    assert Unsigned(bs[1..], 25) == Parsed(1, rest);
  }

  /** A size byte that lost its high bits cuts the content short of the signature. */
  lemma LowSizeByte(f: FuncType)
    requires |TypeBody(f)| >= 0x80 && ToUint8(|TypeBody(f)|) < 0x80
    ensures Decode(Encode(f)) != Some(Intended(f))
  {
    FirstSection(f);
    var bs := Section(1, TypeBody(f)) + Tail();
    var b, body := ToUint8(|TypeBody(f)|), TypeBody(f) + Tail();
    SmallUnsigned(bs[1..]);
    var content := body[..b];
    match InSection(1, content, Module([], [], []))
    case None =>
    case Some(m') =>
      TypesStay(body[b..], 1, m');
      if m'.types == [f] { TooShort(content, f); }
  }

  /** Content shorter than the signature cannot decode to it. */
  lemma TooShort(content: seq<byte>, f: FuncType)
    requires InSection(1, content, Module([], [], [])).Some?
    requires InSection(1, content, Module([], [], [])).value.types == [f]
    ensures |content| >= |f.params| + |f.results| + 4
  {
    match U32(content)
    case Malformed =>
    case Parsed(n, rest) =>
      assert FuncTypes(rest, n).val == [f] && n == 1;
      match FuncTypeOf(rest)
      case Malformed =>
      case Parsed(g, r) =>
        assert FuncTypes(r, 0) == Parsed([], r);
        assert FuncTypes(rest, 1).val == [g] + [];
        assert ([g] + [])[0] == g;
  }

  // ---- main result ------------------------------------------------------------------

  /** The assembled bytes decode to the intended module exactly for signatures of at most 123
      parameters and results together; beyond that the single size byte is no longer the size. */
  lemma DecodesExactlyWhenShort(f: FuncType)
    ensures Decode(Encode(f)) == Some(Intended(f)) <==> |f.params| + |f.results| <= 123
  {
    FirstSection(f);
    if |f.params| + |f.results| <= 123 {
      ShortDecodes(f);
    } else if ToUint8(|TypeBody(f)|) >= 0x80 {
      HighSizeByte(f);
    } else {
      LowSizeByte(f);
    }
  }

  lemma ShortDecodes(f: FuncType)
    requires |f.params| + |f.results| <= 123
    ensures Decode(Encode(f)) == Some(Intended(f))
  {
    FirstSection(f);
    var m0 := Module([], [], []);
    SectionStep(1, TypeBody(f), Tail(), 0, m0);
    TypeSectionDecodes(f, m0);
    TailDecodes(m0.(types := [f]));
  }

  /** The module starts with the magic number and version 1 (section 5.5.16). */
  lemma StartsWithMagic(f: FuncType)
    ensures Encode(f)[..8] == [0x00, 0x61, 0x73, 0x6d, 0x01, 0x00, 0x00, 0x00]
    ensures |Encode(f)| == 30 + |f.params| + |f.results|
  {
    SplitAt(MAGIC, Section(1, TypeBody(f)) + Tail());
    assert Encode(f) == MAGIC + (Section(1, TypeBody(f)) + Tail());
  }

  /** For the empty signature, byte for byte. */
  lemma EmptySignatureBytes()
    ensures Section(1, TypeBody(FuncType([], []))) == [0x01, 0x04, 0x01, 0x60, 0x00, 0x00]
    ensures Section(2, IMPORT_BODY) == [0x02, 0x07, 0x01, 0x01, 0x68, 0x01, 0x66, 0x00, 0x00]
    ensures Section(7, EXPORT_BODY) == [0x07, 0x05, 0x01, 0x01, 0x77, 0x00, 0x00]
  {
  }
}
