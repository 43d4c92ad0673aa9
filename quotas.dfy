/** The state-size quota of the Step Functions interpreter
    (moto/stepfunctions/parser/quotas.py): a value fits when its text,
    encoded as UTF-8, is shorter than 256 KiB. A string is measured as it
    is; any other value as its JSON text, produced by `toJson`, a
    parameter because the encoder is not part of this model. */
module Quotas {
  import opened Values

  /** 256 KiB: the largest state a machine may carry, excluded. */
  const MaxStateSizeUtf8Bytes: nat := 256 * 1024

  newtype byte = b: int | 0 <= b < 256

  /** The UTF-8 encoding of one scalar value (Dafny's `char` holds no
      surrogates, so every character encodes). */
  function EncodeChar(c: char): (r: seq<byte>)
    ensures 1 <= |r| <= 4
    ensures |r| == 1 <==> (c as int) < 0x80
  {
    var n := c as int;
    if n < 0x80 then [n as byte]
    else if n < 0x800 then [(0xC0 + n / 0x40) as byte, (0x80 + n % 0x40) as byte]
    else if n < 0x10000 then [(0xE0 + n / 0x1000) as byte, (0x80 + n / 0x40 % 0x40) as byte, (0x80 + n % 0x40) as byte]
    else [(0xF0 + n / 0x40000) as byte, (0x80 + n / 0x1000 % 0x40) as byte, (0x80 + n / 0x40 % 0x40) as byte, (0x80 + n % 0x40) as byte]
  }

  /** `str.encode("utf-8")` */
  function Encode(s: string): seq<byte>
    decreases |s|
  {
    if s == [] then [] else EncodeChar(s[0]) + Encode(s[1..])
  }

  /** The encoding of a concatenation is the concatenation of the
      encodings. */
  lemma {:induction false} EncodeAppend(s: string, t: string)
    ensures Encode(s + t) == Encode(s) + Encode(t)
    decreases |s|
  {
    if s == [] {
      assert s + t == t;
    } else {
      assert (s + t)[0] == s[0] && (s + t)[1..] == s[1..] + t;
      EncodeAppend(s[1..], t);
    }
  }

  /** Every character takes between one and four bytes; exactly one each
      when the text is ASCII. */
  lemma {:induction false} EncodeLength(s: string)
    ensures |s| <= |Encode(s)| <= 4 * |s|
    ensures (forall i :: 0 <= i < |s| ==> (s[i] as int) < 0x80) ==> |Encode(s)| == |s|
    decreases |s|
  {
    if s != [] {
      EncodeLength(s[1..]);
      assert forall i :: 0 <= i < |s[1..]| ==> s[1..][i] == s[i + 1];
    }
  }

  /** The text a value is measured by. */
  function Text(value: Value, toJson: Value -> string): string
  {
    if value.VStr? then value.s else toJson(value)
  }

  /** `is_within_size_quota` */
  predicate WithinSizeQuota(value: Value, toJson: Value -> string)
  {
    |Encode(Text(value, toJson))| < MaxStateSizeUtf8Bytes
  }

  /** A string of fewer than 64 Ki characters always fits, and one of
      256 Ki characters or more never does, whatever it holds; an ASCII
      string fits exactly when it is shorter than 256 Ki characters. */
  lemma StringQuota(s: string, toJson: Value -> string)
    ensures 4 * |s| < MaxStateSizeUtf8Bytes ==> WithinSizeQuota(VStr(s), toJson)
    ensures |s| >= MaxStateSizeUtf8Bytes ==> !WithinSizeQuota(VStr(s), toJson)
    ensures (forall i :: 0 <= i < |s| ==> (s[i] as int) < 0x80) ==>
              (WithinSizeQuota(VStr(s), toJson) <==> |s| < MaxStateSizeUtf8Bytes)
  {
    EncodeLength(s);
  }

  /** Any other value is measured by its JSON text: the string of that
      text and the value itself fit alike. */
  lemma JsonQuota(value: Value, toJson: Value -> string)
    requires !value.VStr?
    ensures WithinSizeQuota(value, toJson) <==> WithinSizeQuota(VStr(toJson(value)), toJson)
  {
  }

  /** When a concatenation fits, so does each of its parts. */
  lemma QuotaPrefix(s: string, t: string, toJson: Value -> string)
    requires WithinSizeQuota(VStr(s + t), toJson)
    ensures WithinSizeQuota(VStr(s), toJson) && WithinSizeQuota(VStr(t), toJson)
  {
    EncodeAppend(s, t);
  }
}
