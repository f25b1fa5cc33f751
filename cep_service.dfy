/**
 * fetchCep: normalise a Brazilian postal code (CEP) to its digits, require
 * eight of them, ask the ViaCEP service, and map its reply to an error or the
 * data. The HTTP request is the parameter `fetch`.
 */
module CepService {
  import opened Domain

  const LengthMessage := "CEP deve ter 8 dígitos."
  const FetchFailedMessage := "Falha ao buscar o CEP."
  const NotFoundMessage := "CEP não encontrado."

  const CepLength := 8
  const ViaCepPrefix := "https://viacep.com.br/ws/"
  const ViaCepSuffix := "/json/"

  /** The fields of a ViaCEP reply; `erro` is set when the code does not exist. */
  datatype CepData = CepData(
    cep: string, logradouro: string, complemento: string, bairro: string, localidade: string,
    uf: string, ibge: string, gia: string, ddd: string, siafi: string, erro: bool)

  /** What `fetch` yields: whether the status was ok, and the decoded body. */
  datatype CepResponse = CepResponse(ok: bool, data: CepData)

  /** `cep.replace(/\D/g, '')`: the digits of `cep`, in order. */
  function CleanCep(cep: string): (r: string)
    ensures AllDigits(r)
    ensures |r| <= |cep|
    ensures |cep| == 1 && !IsDigit(cep[0]) ==> r == []
  {
    if cep == [] then []
    else (if IsDigit(cep[0]) then [cep[0]] else []) + CleanCep(cep[1..])
  }

  /** The address of the ViaCEP request for a cleaned code. */
  function CepUrl(clean: string): (r: string)
  {
    ViaCepPrefix + clean + ViaCepSuffix
  }

  /** The checks on the reply: a non-ok status, then the `erro` flag; otherwise the data as received. */
  function ReadCepReply(response: CepResponse): (r: Result<CepData>)
    ensures r.Ok? <==> response.ok && !response.data.erro
    ensures r.Ok? ==> r.value == response.data
    ensures !response.ok ==> r == Err(FetchFailedMessage)
    ensures response.ok && response.data.erro ==> r == Err(NotFoundMessage)
  {
    if !response.ok then Err(FetchFailedMessage)
    else if response.data.erro then Err(NotFoundMessage)
    else Ok(response.data)
  }

  /** fetchCep; a thrown error is `Err` with its message. */
  function FetchCep(cep: string, fetch: string -> CepResponse): (r: Result<CepData>)
  {
    var clean := CleanCep(cep);
    if |clean| != CepLength then Err(LengthMessage)
    else ReadCepReply(fetch(CepUrl(clean)))
  }

  // ---------------------------------------------------------------------------
  // Properties

  /** Cleaning twice is cleaning once. */
  lemma CleanCepIdempotent(s: string)
    ensures CleanCep(CleanCep(s)) == CleanCep(s)
  {
    CleanCepKeepsDigitsAll(CleanCep(s));
  }

  /** Cleaning keeps a string of digits as it is. */
  lemma {:induction false} CleanCepKeepsDigitsAll(s: string)
    requires AllDigits(s)
    ensures CleanCep(s) == s
  {
    if s != [] {
      CleanCepKeepsDigitsAll(s[1..]);
    }
  }

  /** The cleaned code holds exactly the characters of `s` that are digits. */
  lemma {:induction false} CleanCepDigitsOf(s: string)
    ensures forall c :: c in CleanCep(s) <==> c in s && IsDigit(c)
  {
    if s != [] {
      CleanCepDigitsOf(s[1..]);
      assert forall c :: c in s <==> c == s[0] || c in s[1..];
    }
  }

  /** A string without digits cleans to nothing: every non-digit is removed. */
  lemma {:induction false} CleanCepDropsNonDigits(s: string)
    requires forall i :: 0 <= i < |s| ==> !IsDigit(s[i])
    ensures CleanCep(s) == []
  {
    if s != [] {
      CleanCepDropsNonDigits(s[1..]);
    }
  }

  /** Cleaning works character by character: it distributes over concatenation. */
  lemma {:induction false} CleanCepConcat(a: string, b: string)
    ensures CleanCep(a + b) == CleanCep(a) + CleanCep(b)
  {
    if a != [] {
      assert (a + b)[1..] == a[1..] + b;
      CleanCepConcat(a[1..], b);
    } else {
      assert a + b == b;
    }
  }

  /** Separators are dropped: "01310-100" cleans to "01310100". */
  lemma CleanFormattedCep()
    ensures CleanCep("01310-100") == "01310100"
  {
    CleanCepConcat("01310", "-100");
    CleanCepKeepsDigitsAll("01310");
    CleanCepKeepsDigitsAll("100");
    assert "01310" + "-100" == "01310-100";
    assert "-100"[1..] == "100";
  }

  /** A code without eight digits fails with the length message, whatever the service would answer: no request matters. */
  lemma ShortCepNeverFetched(cep: string, fetch1: string -> CepResponse, fetch2: string -> CepResponse)
    requires |CleanCep(cep)| != CepLength
    ensures FetchCep(cep, fetch1) == Err(LengthMessage)
    ensures FetchCep(cep, fetch1) == FetchCep(cep, fetch2)
  {
  }

  /**
   * With eight digits, exactly one address is asked for: the prefix, the eight
   * cleaned digits, the suffix; the outcome depends on the reply to it alone.
   */
  lemma CepRequestAddress(cep: string, fetch1: string -> CepResponse, fetch2: string -> CepResponse)
    requires |CleanCep(cep)| == CepLength
    ensures var url := CepUrl(CleanCep(cep));
      && |url| == |ViaCepPrefix| + CepLength + |ViaCepSuffix|
      && url[..|ViaCepPrefix|] == ViaCepPrefix
      && AllDigits(url[|ViaCepPrefix|..|ViaCepPrefix| + CepLength])
      && url[|ViaCepPrefix| + CepLength..] == ViaCepSuffix
      && (fetch1(url) == fetch2(url) ==> FetchCep(cep, fetch1) == FetchCep(cep, fetch2))
  {
    var clean := CleanCep(cep);
    var url := CepUrl(clean);
    assert url[|ViaCepPrefix|..|ViaCepPrefix| + CepLength] == clean;
  }
}
