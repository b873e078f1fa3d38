/** Which payloads are SIP, and which method they name, read off their bytes. */
module SipBytes {
  import opened Text
  import opened Sip

  predicate IsUpper(c: char) { 'A' <= c <= 'Z' }

  /** The first `n` bytes are upper-case letters, and a space or the ninth byte ends them. */
  predicate BeginsMethod(data: Payload, n: nat) {
    n <= 9 && (forall j :: 0 <= j < n ==> IsUpper(data[j])) && (n < 9 ==> data[n] == ' ')
  }

  /** A status line, or a method. */
  ghost predicate LooksSip(data: Payload) {
    data[..8] == "SIP/2.0 " || exists n: nat :: BeginsMethod(data, n)
  }

  lemma MethodFound(data: Payload, n: nat)
    requires BeginsMethod(data, n)
    ensures Method(data) == Some(data[..n])
  {
    var word := data[..METHOD_SIZE] + " ";
    assert forall j :: 0 <= j < n ==> word[j] == data[j];
    assert word[n] == ' ';
    TokenEndIs(word, n);
    assert word[..n] == data[..n];
  }

  lemma MethodBegins(data: Payload)
    requires Method(data).Some?
    ensures BeginsMethod(data, |Method(data).value|)
  {
    var word := data[..METHOD_SIZE] + " ";
    var n := TokenEnd(word);
    assert |Method(data).value| == n;
    assert forall j :: 0 <= j < n && j < 9 ==> word[j] == data[j];
    assert n < 9 ==> word[n] == data[n];
  }

  /** A payload is taken for SIP if and only if it begins with the status line's version,
      or with upper-case letters up to a space or the ninth byte. */
  lemma IsSipIff(data: Payload)
    ensures IsSip(data) <==> LooksSip(data)
  {
    if Method(data).Some? {
      MethodBegins(data);
    }
    if exists n: nat :: BeginsMethod(data, n) {
      var n: nat :| BeginsMethod(data, n);
      MethodFound(data, n);
    }
  }

  lemma StatusIsNoMethod(data: Payload)
    ensures data[..8] == "SIP/2.0 " ==> forall n: nat :: !BeginsMethod(data, n)
  {
    assert data[0] == data[..8][0] && data[1] == data[..8][1] && data[2] == data[..8][2] && data[3] == data[..8][3];
  }

  /** The method is what these letters spell; a status line has none. */
  lemma MethodNameIs(data: Payload)
    ensures forall n: nat :: BeginsMethod(data, n) ==> MethodName(data) == data[..n]
    ensures (forall n: nat :: !BeginsMethod(data, n)) ==> MethodName(data) == ""
    ensures data[..8] == "SIP/2.0 " ==> MethodName(data) == ""
  {
    forall n: nat | BeginsMethod(data, n)
      ensures MethodName(data) == data[..n]
    {
      MethodFound(data, n);
    }
    if Method(data).Some? {
      MethodBegins(data);
    }
    StatusIsNoMethod(data);
  }

  predicate LooksBye(data: Payload) { data[..4] == "BYE " }

  /** A BYE is a payload that begins `BYE ` and nothing else. */
  lemma IsByeIff(data: Payload)
    ensures MethodName(data) == "BYE" <==> LooksBye(data)
  {
    if LooksBye(data) {
      assert data[0] == data[..4][0] && data[1] == data[..4][1] && data[2] == data[..4][2] && data[3] == data[..4][3];
      assert BeginsMethod(data, 3);
      MethodFound(data, 3);
      assert data[..3] == "BYE";
    }
    if MethodName(data) == "BYE" {
      MethodBegins(data);
      assert data[..4] == data[..3] + [data[3]];
    }
  }
}
