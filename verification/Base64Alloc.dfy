/** The allocating interfaces of src/base64.c, whose sizes are computed in 64-bit unsigned arithmetic. */
module Base64Alloc {
  import opened Words
  import opened Base64Standard
  import opened Base64

  /** 1 + BASE64_LENGTH(inlen), each operation modulo 2^64. */
  function WrappedSize(inlen: nat): (r: nat)
    requires inlen < TWO64
    ensures r < TWO64
  {
    (1 + (inlen + 2) % TWO64 / 3 * 4 % TWO64) % TWO64
  }

  /** The same size without wrap-around. */
  function ExactSize(inlen: nat): nat {
    1 + (inlen + 2) / 3 * 4
  }

  /** Comparing the wrapped size with the input length detects every overflow and nothing else. */
  lemma OverflowTest(inlen: nat)
    requires inlen < TWO64
    ensures inlen > WrappedSize(inlen) <==> ExactSize(inlen) >= TWO64
    ensures ExactSize(inlen) < TWO64 ==> WrappedSize(inlen) == ExactSize(inlen)
  {
    if inlen + 2 >= TWO64 {
      ModUnique(inlen + 2, 1, inlen + 2 - TWO64);
      assert (inlen + 2) % TWO64 / 3 == 0;
    } else {
      ModUnique(inlen + 2, 0, inlen + 2);
      var q := (inlen + 2) / 3;
      assert 3 * q <= inlen + 2 < 3 * q + 3;
      var wraps := if q * 4 >= TWO64 then 1 else 0;
      ModUnique(q * 4, wraps, q * 4 - wraps * TWO64);
      var r := q * 4 - wraps * TWO64;
      assert r % 4 == 0 && 1 + r < TWO64;
      ModUnique(1 + r, 0, 1 + r);
    }
  }

  /** base64_encode_alloc. A size that overflows is reported as 0, memory that cannot be had as the size needed. */
  method EncodeAlloc(input: seq<byte>, mallocSucceeds: bool) returns (out: array?<char>, length: nat)
    requires |input| < TWO64
    ensures ExactSize(|input|) >= TWO64 ==> out == null && length == 0
    ensures ExactSize(|input|) < TWO64 && !mallocSucceeds ==> out == null && length == |Encoding(input)| + 1
    ensures ExactSize(|input|) < TWO64 && mallocSucceeds ==>
              out != null && out[..] == Encoding(input) + "\0" && length == |Encoding(input)|
  {
    OverflowTest(|input|);
    var outlen := WrappedSize(|input|);
    if |input| > outlen {
      return null, 0;
    }
    if !mallocSucceeds {
      return null, outlen;
    }
    out := new char[outlen];
    Encode(input, out, outlen);
    length := outlen - 1;
  }

  /** base64_decode_alloc. The length is stored only when decoding was reached and succeeded. */
  method DecodeAlloc(s: string, mallocSucceeds: bool, outlen: nat) returns (ok: bool, out: array?<byte>, outlen': nat)
    requires |s| < TWO64
    ensures !mallocSucceeds ==> ok && out == null && outlen' == outlen
    ensures mallocSucceeds ==> (ok <==> WellFormed(s))
    ensures mallocSucceeds && ok ==>
              out != null && outlen' == |Decode(s).bytes| <= out.Length && out[..outlen'] == Decode(s).bytes
    ensures mallocSucceeds && !ok ==> out == null && outlen' == outlen
  {
    var needlen := 3 * (|s| / 4) + 2;
    assert needlen < TWO64;
    outlen' := outlen;
    if !mallocSucceeds {
      return true, null, outlen;
    }
    EnoughRoom(s);
    AcceptsExactly(s);
    var buffer := new byte[needlen];
    var written: nat;
    ok, written := DecodeInto(s, buffer, needlen);
    if !ok {
      return false, null, outlen;
    }
    out, outlen' := buffer, written;
  }
}
