/** The server name of a TLS ClientHello message (section 4.1.2 of RFC 8446, section 3 of RFC 6066). */
module ClientHello {
  import opened Bytes
  import opened Wrappers

  const CLIENT_HELLO: byte := 1
  const HEAD := 38  // handshake header, version, random
  const MAX_NAME := 253

  predicate NameByte(b: byte) {
    || ('0' as int <= b <= '9' as int)
    || ('A' as int <= b <= 'Z' as int)
    || ('a' as int <= b <= 'z' as int)
    || b == '-' as int || b == '.' as int || b == '_' as int
  }

  function Lower(b: byte): char {
    if 'A' as int <= b <= 'Z' as int then (b + 32) as char else b as char
  }

  function LowerAll(name: seq<byte>): string {
    seq(|name|, i requires 0 <= i < |name| => Lower(name[i]))
  }


  /** The body of a server_name extension: list length, type, name length, name. */
  function ServerName(body: seq<byte>): Option<string> {
    if |body| < 3 || Be16(body[0], body[1]) + 2 != |body| || body[2] != 0 then None
    else if |body| < 5 then None
    else
      var size := Be16(body[3], body[4]);
      if size == 0 || size > MAX_NAME || size + 3 != |body| - 2 then None
      else
        var name := body[5..5 + size];
        if forall b | b in name :: NameByte(b) then Some(LowerAll(name)) else None
  }

  function Extensions(b: seq<byte>): Option<string> {
    if |b| < 4 then None
    else
      var size := Be16(b[2], b[3]);
      if 4 + size > |b| then None
      else if Be16(b[0], b[1]) == 0 then ServerName(b[4..4 + size])
      else Extensions(b[4 + size..])
  }

  /** The offset behind a field whose length takes one byte. */
  function AfterShort(rec: seq<byte>, p: nat): Option<nat> {
    if p >= |rec| then None else Some(p + 1 + rec[p])
  }

  /** The offset behind a field whose length takes two bytes. */
  function AfterLong(rec: seq<byte>, p: nat): Option<nat> {
    if p + 2 > |rec| then None else Some(p + 2 + Be16(rec[p], rec[p + 1]))
  }

  /** The offset of the extensions' total length: behind session id, cipher suites, compression. */
  function ExtensionsAt(rec: seq<byte>): Option<nat> {
    match AfterShort(rec, HEAD)
    case None => None
    case Some(p) =>
      match AfterLong(rec, p)
      case None => None
      case Some(q) => AfterShort(rec, q)
  }

  /** The message cut to its own length; None when it is no complete ClientHello. */
  function Message(msg: seq<byte>): Option<seq<byte>> {
    if |msg| < 4 || msg[0] != CLIENT_HELLO || 4 + Be24(msg[1], msg[2], msg[3]) > |msg| then None
    else Some(msg[..4 + Be24(msg[1], msg[2], msg[3])])
  }

  function ExtensionBlock(rec: seq<byte>): Option<seq<byte>> {
    match ExtensionsAt(rec)
    case None => None
    case Some(p) =>
      match AfterLong(rec, p)
      case None => None
      case Some(end) => if end > |rec| then None else Some(rec[p + 2..end])
  }

  function Sni(msg: seq<byte>): Option<string> {
    match Message(msg)
    case None => None
    case Some(rec) =>
      match ExtensionBlock(rec)
      case None => None
      case Some(block) => Extensions(block)
  }

  /** A cursor moves field by field up to the extensions. */
  method FindExtensions(rec: seq<byte>) returns (block: Option<seq<byte>>)
    ensures block == ExtensionBlock(rec)
  {
    var p: nat := HEAD;
    if p >= |rec| { return None; }
    p := p + 1 + rec[p];
    if p + 2 > |rec| { return None; }
    p := p + 2 + Be16(rec[p], rec[p + 1]);
    if p >= |rec| { return None; }
    p := p + 1 + rec[p];
    if p + 2 > |rec| { return None; }
    var end := p + 2 + Be16(rec[p], rec[p + 1]);
    p := p + 2;
    if end > |rec| { return None; }
    return Some(rec[p..end]);
  }

  method FindServerName(msg: seq<byte>) returns (name: Option<string>)
    ensures name == Sni(msg)
  {
    hide Extensions, ExtensionBlock;
    if |msg| < 4 || msg[0] != CLIENT_HELLO { return None; }
    var length := Be24(msg[1], msg[2], msg[3]);
    if 4 + length > |msg| { return None; }
    var found := FindExtensions(msg[..4 + length]);
    if found == None { return None; }
    name := ScanExtensions(found.value);
  }

  /** A cursor moves over the extensions to the first that names the server. */
  method ScanExtensions(block: seq<byte>) returns (name: Option<string>)
    ensures name == Extensions(block)
  {
    hide Extensions, ServerName, Be16;
    var p := 0;
    while p + 4 <= |block|
      invariant p <= |block| && Extensions(block[p..]) == Extensions(block)
    {
      var size := Be16(block[p + 2], block[p + 3]);
      ExtensionAt(block, p);
      if p + 4 + size > |block| { return None; }
      if Be16(block[p], block[p + 1]) == 0 {
        return ServerName(block[p + 4..p + 4 + size]);
      }
      p := p + 4 + size;
    }
    TooShort(block[p..]);
    return None;
  }

  lemma ExtensionAt(block: seq<byte>, p: nat)
    requires p + 4 <= |block|
    ensures var size := Be16(block[p + 2], block[p + 3]);
            Extensions(block[p..])
            == if p + 4 + size > |block| then None
               else if Be16(block[p], block[p + 1]) == 0 then ServerName(block[p + 4..p + 4 + size])
               else Extensions(block[p + 4 + size..])
  {
    hide ServerName, Be16;
    var rest, size := block[p..], Be16(block[p + 2], block[p + 3]);
    if p + 4 + size <= |block| {
      assert rest[4..4 + size] == block[p + 4..p + 4 + size];
      assert rest[4 + size..] == block[p + 4 + size..];
    }
  }

  lemma TooShort(block: seq<byte>)
    requires |block| < 4
    ensures Extensions(block) == None
  {}

  // What a client sends.

  /** A host name of at most 253 ASCII letters, digits, hyphens, dots and underscores. */
  predicate ValidName(name: seq<byte>) {
    && 0 < |name| <= 253
    && forall b | b in name :: 48 <= b <= 57 || 65 <= b <= 90 || 97 <= b <= 122 || b == 45 || b == 46 || b == 95
  }

  /** The text of the name, with the capital letters A to Z (codes 65 to 90) made small, 32 codes further on. */
  predicate InLowerCase(name: seq<byte>, text: string) {
    && |text| == |name|
    && forall i | 0 <= i < |name| :: text[i] as int == if 65 <= name[i] <= 90 then name[i] + 32 else name[i]
  }

  datatype Extension = Extension(kind: nat, body: seq<byte>)
  {
    predicate Valid() {
      kind < TWO16 && |body| < TWO16
    }
  }

  type AnyExtension = e: Extension | e.Valid() witness Extension(0, [])

  datatype Hello = Hello(versionAndRandom: seq<byte>, session: seq<byte>, suites: seq<byte>,
                         compression: seq<byte>, extensions: seq<AnyExtension>)
  {
    predicate Valid() {
      && |versionAndRandom| == 34
      && |session| < 0x100 && |suites| < TWO16 && |compression| < 0x100
      && |EncodeExtensions(extensions)| < TWO16
    }
  }

  function EncodeExtensions(es: seq<AnyExtension>): seq<byte>
  {
    if es == [] then [] else
      ToBe16(es[0].kind) + ToBe16(|es[0].body|) + es[0].body + EncodeExtensions(es[1..])
  }

  function EncodeFields(h: Hello): (fields: seq<byte>)
    requires h.Valid()
    ensures |fields| < 0x100_0000 - 34
  {
    var es := EncodeExtensions(h.extensions);
    [|h.session|] + h.session + (ToBe16(|h.suites|) + h.suites
    + ([|h.compression|] + h.compression + (ToBe16(|es|) + es)))
  }

  function Encode(h: Hello): (msg: seq<byte>)
    requires h.Valid()
    ensures |msg| >= HEAD && msg[0] == 1 && |msg| == 4 + Be24(msg[1], msg[2], msg[3])
    ensures msg[HEAD..] == EncodeFields(h)
  {
    [1] + ToBe24(34 + |EncodeFields(h)|) + h.versionAndRandom + EncodeFields(h)
  }

  function EncodeServerName(name: seq<byte>): seq<byte>
    requires ValidName(name)
  {
    ToBe16(|name| + 3) + [0] + ToBe16(|name|) + name
  }

  /** What the extensions say of the server: the first server_name extension decides. */
  function Announced(es: seq<AnyExtension>): Option<string> {
    if es == [] then None
    else if es[0].kind == 0 then ServerName(es[0].body)
    else Announced(es[1..])
  }

  lemma {:induction false} ExtensionsDecode(es: seq<AnyExtension>)
    ensures Extensions(EncodeExtensions(es)) == Announced(es)
  {
    if es != [] {
      var body, tail := es[0].body, EncodeExtensions(es[1..]);
      var b := EncodeExtensions(es);
      assert b[4..4 + |body|] == body && b[4 + |body|..] == tail;
      ExtensionsDecode(es[1..]);
    }
  }

  lemma ShortField(rec: seq<byte>, p: nat, field: seq<byte>, rest: seq<byte>)
    requires p <= |rec| && |field| < 0x100 && rec[p..] == [|field|] + field + rest
    ensures AfterShort(rec, p) == Some(p + 1 + |field|)
    ensures p + 1 + |field| <= |rec| && rec[p + 1 + |field|..] == rest
  {
    assert rec[p] == rec[p..][0];
    assert rec[p + 1 + |field|..] == rec[p..][1 + |field|..];
  }

  lemma LongField(rec: seq<byte>, p: nat, field: seq<byte>, rest: seq<byte>)
    requires p <= |rec| && |field| < TWO16 && rec[p..] == ToBe16(|field|) + field + rest
    ensures AfterLong(rec, p) == Some(p + 2 + |field|)
    ensures p + 2 + |field| <= |rec| && rec[p + 2..p + 2 + |field|] == field && rec[p + 2 + |field|..] == rest
  {
    assert rec[p] == rec[p..][0] && rec[p + 1] == rec[p..][1];
    assert rec[p + 2 + |field|..] == rec[p..][2 + |field|..];
    assert rec[p + 2..p + 2 + |field|] == rec[p..][2..2 + |field|];
  }

  /** Four fields in a row: session id, cipher suites, compression, extensions. */
  lemma {:induction false} FieldsDecode(rec: seq<byte>, session: seq<byte>, suites: seq<byte>, compression: seq<byte>,
                                        es: seq<byte>,
                     r1: seq<byte>, r2: seq<byte>, r3: seq<byte>)
    requires |session| < 0x100 && |suites| < TWO16 && |compression| < 0x100 && |es| < TWO16
    requires HEAD <= |rec| && rec[HEAD..] == [|session|] + session + r1
    requires r1 == ToBe16(|suites|) + suites + r2
    requires r2 == [|compression|] + compression + r3
    requires r3 == ToBe16(|es|) + es + []
    ensures ExtensionBlock(rec) == Some(es)
  {
    hide AfterShort, AfterLong, ToBe16;
    ShortField(rec, HEAD, session, r1);
    var p := HEAD + 1 + |session|;
    LongField(rec, p, suites, r2);
    var q := p + 2 + |suites|;
    ShortField(rec, q, compression, r3);
    LongField(rec, q + 1 + |compression|, es, []);
  }

  lemma MessageOfEncoded(rec: seq<byte>, tail: seq<byte>)
    requires |rec| >= 4 && rec[0] == CLIENT_HELLO && |rec| == 4 + Be24(rec[1], rec[2], rec[3])
    ensures Message(rec + tail) == Some(rec)
  {
    var all := rec + tail;
    assert all[..|rec|] == rec;
    assert all[0] == rec[0] && all[1] == rec[1] && all[2] == rec[2] && all[3] == rec[3];
  }

  /** Whatever precedes the extensions, the message says what its extensions announce; bytes after
      the message change nothing. */
  lemma SniOfEncoded(h: Hello, tail: seq<byte>)
    requires h.Valid()
    ensures Sni(Encode(h) + tail) == Announced(h.extensions)
  {
    MessageOfEncoded(Encode(h), tail);
    var es := EncodeExtensions(h.extensions);
    var r3 := ToBe16(|es|) + es;
    var r2 := [|h.compression|] + h.compression + r3;
    var r1 := ToBe16(|h.suites|) + h.suites + r2;
    assert r3 == r3 + [];
    FieldsDecode(Encode(h), h.session, h.suites, h.compression, es, r1, r2, r3);
    ExtensionsDecode(h.extensions);
  }

  /** A body is accepted exactly when it carries one valid host name, which is returned in lower case. */
  lemma ServerNameIffValid(body: seq<byte>, text: string)
    ensures ServerName(body) == Some(text)
            <==> exists name :: ValidName(name) && body == EncodeServerName(name) && InLowerCase(name, text)
  {
    hide ServerName, EncodeServerName;
    if ServerName(body) == Some(text) {
      AcceptedIsEncoded(body);
      LowerAllIs(body[5..], text);
    }
    if name :| ValidName(name) && body == EncodeServerName(name) && InLowerCase(name, text) {
      EncodedIsAccepted(name);
      LowerAllIs(name, text);
    }
  }

  lemma LowerAllIs(name: seq<byte>, text: string)
    ensures text == LowerAll(name) <==> InLowerCase(name, text)
  {
    if InLowerCase(name, text) {
      forall i | 0 <= i < |name|
        ensures text[i] == LowerAll(name)[i]
      {
        assert text[i] as int == LowerAll(name)[i] as int;
      }
    }
  }

  /** A name is found in ClientHello messages alone, and only in whole ones. */
  lemma OnlyOfHello(msg: seq<byte>)
    ensures Sni(msg).Some? ==> |msg| >= 4 && msg[0] == 1 && 4 + Be24(msg[1], msg[2], msg[3]) <= |msg|
  {
    hide ExtensionBlock, Extensions, Be24;
  }

  lemma AcceptedIsEncoded(body: seq<byte>)
    requires ServerName(body).Some?
    ensures |body| >= 5
    ensures ValidName(body[5..]) && body == EncodeServerName(body[5..])
    ensures ServerName(body) == Some(LowerAll(body[5..]))
  {
    var name := body[5..];
    assert body[5..5 + Be16(body[3], body[4])] == name;
    assert body == [body[0], body[1]] + [body[2]] + [body[3], body[4]] + name;
  }

  lemma EncodedIsAccepted(name: seq<byte>)
    requires ValidName(name)
    ensures ServerName(EncodeServerName(name)) == Some(LowerAll(name))
  {
    var body := EncodeServerName(name);
    assert body[5..5 + |name|] == name;
  }

  /** The name is found behind any extensions that are not server_name, in lower case. */
  lemma {:induction false} AnnouncedBehind(before: seq<AnyExtension>, name: seq<byte>, text: string,
                                           after: seq<AnyExtension>)
    requires ValidName(name) && InLowerCase(name, text)
    requires forall e | e in before :: e.kind != 0
    ensures Announced(before + [Extension(0, EncodeServerName(name))] + after) == Some(text)
  {
    hide ServerName, EncodeServerName, ValidName, InLowerCase;
    var es := before + [Extension(0, EncodeServerName(name))] + after;
    if before == [] {
      EncodedIsAccepted(name);
      LowerAllIs(name, text);
    } else {
      assert es[1..] == before[1..] + [Extension(0, EncodeServerName(name))] + after;
      AnnouncedBehind(before[1..], name, text, after);
    }
  }
}
