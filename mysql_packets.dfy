/**
  Fixed packets of the MySQL Client/Server Protocol used to imitate a MySQL
  server, and the encoder of the LOCAL INFILE Request.

  Every packet starts with a 4-byte header: a 3-byte little-endian payload
  length followed by a 1-byte sequence id.
 */
module MySQLPackets {

  type Byte = x: int | 0 <= x < 0x100

  /** Largest payload length a single packet header can express. */
  const MaxPayloadLength: nat := 0xFF_FFFF

  /** Header field: the payload length, read as a 24-bit little-endian value. */
  function PayloadLength(p: seq<Byte>): (n: nat)
    requires |p| >= 4
    ensures n <= MaxPayloadLength
  {
    p[0] as int + 0x100 * (p[1] as int) + 0x1_0000 * (p[2] as int)
  }

  /** Header field: the sequence id. */
  function SequenceId(p: seq<Byte>): Byte
    requires |p| >= 4
  {
    p[3]
  }

  /** The bytes after the header. */
  function Payload(p: seq<Byte>): seq<Byte>
    requires |p| >= 4
  {
    p[4..]
  }

  /** A packet whose header length is the length of what follows the header. */
  predicate WellFramed(p: seq<Byte>) {
    |p| >= 4 && PayloadLength(p) == |p| - 4
  }

  /** No byte of `s` is a NUL. */
  predicate NulFree(s: seq<Byte>) {
    forall i :: 0 <= i < |s| ==> s[i] != 0
  }

  /** Protocol::HandshakeV10 sent by the server, sequence id 0. */
  // Written row by row as in the source; one 95-element display is too deep for the solver to index.
  const Greeting: seq<Byte> :=
    [0x5b, 0x00, 0x00, 0x00, 0x0a, 0x35, 0x2e, 0x36] +
    [0x2e, 0x32, 0x38, 0x2d, 0x30, 0x75, 0x62, 0x75] +
    [0x6e, 0x74, 0x75, 0x30, 0x2e, 0x31, 0x34, 0x2e] +
    [0x30, 0x34, 0x2e, 0x31, 0x00, 0x2d, 0x00, 0x00] +
    [0x00, 0x40, 0x3f, 0x59, 0x26, 0x4b, 0x2b, 0x34] +
    [0x60, 0x00, 0xff, 0xf7, 0x08, 0x02, 0x00, 0x7f] +
    [0x80, 0x15, 0x00, 0x00, 0x00, 0x00, 0x00, 0x00] +
    [0x00, 0x00, 0x00, 0x00, 0x68, 0x69, 0x59, 0x5f] +
    [0x52, 0x5f, 0x63, 0x55, 0x60, 0x64, 0x53, 0x52] +
    [0x00, 0x6d, 0x79, 0x73, 0x71, 0x6c, 0x5f, 0x6e] +
    [0x61, 0x74, 0x69, 0x76, 0x65, 0x5f, 0x70, 0x61] +
    [0x73, 0x73, 0x77, 0x6f, 0x72, 0x64, 0x00]

  /** OK_Packet answering the client's handshake response, sequence id 2. */
  const FirstResponseOK: seq<Byte> := [
    0x07, 0x00, 0x00, 0x02, 0x00, 0x00, 0x00, 0x02,
    0x00, 0x00, 0x00
  ]

  /** OK_Packet answering the client's next command, sequence id 4. */
  const SecondResponseOK: seq<Byte> := [
    0x07, 0x00, 0x00, 0x04, 0x00, 0x00, 0x00, 0x02,
    0x00, 0x00, 0x00
  ]

  const OkMarker: Byte := 0x00
  const LocalInfileMarker: Byte := 0xfb
  const ProtocolVersion10: Byte := 0x0a
  const ServerStatusAutocommit: nat := 0x0002

  /** The greeting is a well-framed packet of sequence id 0 whose 91-byte payload
      starts with protocol version 10 (Protocol::HandshakeV10). */
  lemma GreetingHeader()
    ensures |Greeting| == 95 && WellFramed(Greeting) && PayloadLength(Greeting) == 0x5b
    ensures SequenceId(Greeting) == 0
    ensures Payload(Greeting)[0] == ProtocolVersion10
  {
  }

  /** The payload's NUL-terminated strings end where HandshakeV10 puts them: the
      server version (bytes 5..27), the 13-byte second part of the auth-plugin-data
      (bytes 60..72) and the plugin name (bytes 73..93); the auth-plugin-data length
      byte (21) is its first part (8 bytes) plus its second part. */
  lemma GreetingStrings()
    ensures NulFree(Greeting[5..28]) && Greeting[28] == 0
    ensures Greeting[41] == 0 && Greeting[49] == 21 && 21 == |Greeting[33..41]| + |Greeting[60..73]|
    ensures NulFree(Greeting[60..72]) && Greeting[72] == 0
    ensures NulFree(Greeting[73..94]) && Greeting[94] == 0
  {
  }

  /** Both OK packets are well framed (7 payload bytes in 11), carry the OK marker
      and report the autocommit status; they differ only in their sequence id. */
  lemma ResponsesAreOkPackets()
    ensures |FirstResponseOK| == 11 && WellFramed(FirstResponseOK) && PayloadLength(FirstResponseOK) == 7
    ensures |SecondResponseOK| == 11 && WellFramed(SecondResponseOK) && PayloadLength(SecondResponseOK) == 7
    ensures SequenceId(FirstResponseOK) == 2 && SequenceId(SecondResponseOK) == 4
    ensures Payload(FirstResponseOK)[0] == OkMarker && Payload(SecondResponseOK)[0] == OkMarker
    ensures FirstResponseOK[7] + 0x100 * FirstResponseOK[8] == ServerStatusAutocommit
    ensures SecondResponseOK[7] + 0x100 * SecondResponseOK[8] == ServerStatusAutocommit
    ensures forall i :: 0 <= i < 11 && i != 3 ==> FirstResponseOK[i] == SecondResponseOK[i]
  {
  }

  /** LOCAL INFILE Request for file name `infile` (its bytes), as the source
      writes it: only the low length byte is set, truncated to 8 bits. */
  function GetFile(infile: seq<Byte>): (r: seq<Byte>)
    ensures |r| == 5 + |infile|
    ensures r[0] == (|infile| + 1) % 0x100
    ensures r[1..5] == [0x00, 0x00, 0x01, LocalInfileMarker]
    ensures r[5..] == infile
  {
    [((|infile| + 1) % 0x100) as Byte, 0x00, 0x00, 0x01, LocalInfileMarker] + infile
  }

  /** The request has sequence id 1 and its payload is the marker then the name. */
  lemma GetFilePayload(infile: seq<Byte>)
    ensures SequenceId(GetFile(infile)) == 1
    ensures Payload(GetFile(infile)) == [LocalInfileMarker] + infile
  {
    assert Payload(GetFile(infile)) == GetFile(infile)[4..];
  }

  /** The header of GetFile is right exactly for names shorter than 255 bytes. */
  lemma GetFileFramedIff(infile: seq<Byte>)
    ensures WellFramed(GetFile(infile)) <==> |infile| < 255
  {
    var r := GetFile(infile);
    assert PayloadLength(r) == (|infile| + 1) % 0x100;
  }

  /** A 255-byte name gets a header announcing an empty payload instead of 256 bytes. */
  lemma GetFileLongNameMisframed()
    ensures var r := GetFile(seq(255, _ => 0x61));
            PayloadLength(r) == 0 && |Payload(r)| == 256
  {
    var r := GetFile(seq(255, _ => 0x61));
    assert PayloadLength(r) == 0;
  }

  /** LOCAL INFILE Request with all three length bytes written. */
  function GetFileFramed(infile: seq<Byte>): (r: seq<Byte>)
    ensures |r| == 5 + |infile|
    ensures r[3..5] == [0x01, LocalInfileMarker] && r[5..] == infile
  {
    var n := |infile| + 1;
    [(n % 0x100) as Byte, (n / 0x100 % 0x100) as Byte, (n / 0x1_0000 % 0x100) as Byte,
     0x01, LocalInfileMarker] + infile
  }

  /** The corrected header is right for every name a single packet can carry,
      and agrees with GetFile wherever GetFile is right. */
  lemma GetFileFramedCorrect(infile: seq<Byte>)
    ensures WellFramed(GetFileFramed(infile)) <==> |infile| < MaxPayloadLength
    ensures |infile| < 255 ==> GetFileFramed(infile) == GetFile(infile)
  {
    var n := |infile| + 1;
    var r := GetFileFramed(infile);
    if n <= MaxPayloadLength {
      assert n / 0x1_0000 % 0x100 == n / 0x1_0000;
      assert PayloadLength(r) == n % 0x100 + 0x100 * (n / 0x100 % 0x100) + 0x1_0000 * (n / 0x1_0000);
      assert n == n % 0x100 + 0x100 * (n / 0x100 % 0x100) + 0x1_0000 * (n / 0x1_0000);
    } else {
      assert PayloadLength(r) <= MaxPayloadLength;
    }
  }
}
