/**
 * `normalizarQR`: reduces a scanned QR text or a QR URL of the label API to the code it carries.
 * Each anchored regular expression `<marker>([A-Za-z0-9]+)$` with flag `i` becomes a check on
 * the maximal alphanumeric run that ends the text and on the characters right before it.
 */
module QrNormalizer {
  import opened Wrappers
  import opened Text

  /** The path marker of the label API's URLs, `/Q/`. */
  const ApiMarker: string := "/Q/"

  /** The same marker as the physical scanner types it, with `/` turned into `-`. */
  const ScannerMarker: string := "-Q-"

  /** The marker of the public verification URL, `verify.crocs.com/Q/`. */
  const VerifyMarker: string := "verify.crocs.com/Q/"

  /** Where the maximal run of ASCII letters and digits that ends `s` starts. */
  function TrailingAlnumStart(s: string): (r: nat)
    ensures r <= |s| && AllAlnum(s[r..])
    ensures r == 0 || !IsAlnum(s[r - 1])
  {
    if s == [] || !IsAlnum(s[|s| - 1]) then |s|
    else
      var p := TrailingAlnumStart(s[..|s| - 1]);
      assert s[p..] == s[..|s| - 1][p..] + [s[|s| - 1]];
      p
  }

  /**
   * `s.match(/<marker>([A-Za-z0-9]+)$/i)`: the captured run when `s` ends with the marker, letters
   * compared ignoring case, followed by at least one letter or digit.
   */
  function MatchAfter(s: string, marker: string): (r: Option<string>)
    ensures r.Some? ==> r.value != [] && AllAlnum(r.value) && |r.value| + |marker| <= |s|
  {
    var p := TrailingAlnumStart(s);
    if p < |s| && |marker| <= p && SameIgnoringCase(s[p - |marker|..p], marker) then Some(s[p..]) else None
  }

  /** `^[A-Za-z0-9]{8,20}$`: the text is already a bare code. */
  predicate LooksLikeCode(s: string)
  {
    8 <= |s| <= 20 && AllAlnum(s)
  }

  /**
   * `normalizarQR`: None for a missing, non-string or empty value; otherwise the trimmed text
   * reduced to its code. A non-string value is None like a missing one.
   */
  function NormalizarQR(raw: Option<string>): (r: Option<string>)
    ensures r.None? <==> raw.None? || raw.value == []
  {
    if raw.None? || raw.value == [] then None else Some(Normalizado(Trim(raw.value)))
  }

  /**
   * The branches of `normalizarQR` on the trimmed text, in order: the code after `/Q/`, after `-Q-`
   * or after `verify.crocs.com/Q/`, upper-cased; a bare code upper-cased; anything else upper-cased.
   */
  function Normalizado(texto: string): string
  {
    var urlTus := MatchAfter(texto, ApiMarker);
    if urlTus.Some? then ToUpper(urlTus.value)
    else
      var escaner := MatchAfter(texto, ScannerMarker);
      if escaner.Some? then ToUpper(escaner.value)
      else
        var verify := MatchAfter(texto, VerifyMarker);
        if verify.Some? then ToUpper(verify.value)
        else if LooksLikeCode(texto) then ToUpper(texto)
        else ToUpper(texto)
  }

  /** `normalizarQrDesdeApi`: the same normalisation, for URLs returned by the label API. */
  function NormalizarQrDesdeApi(qrUrl: Option<string>): (r: Option<string>)
    ensures r.None? <==> qrUrl.None? || qrUrl.value == []
  {
    NormalizarQR(qrUrl)
  }

  // ---------------------------------------------------------------------------------------------

  /** Only one position can start the trailing alphanumeric run. */
  lemma TrailingAlnumUnique(s: string, q: nat)
    requires q <= |s| && AllAlnum(s[q..]) && (q == 0 || !IsAlnum(s[q - 1]))
    ensures q == TrailingAlnumStart(s)
  {
  }

  /**
   * The regular expression matches exactly when some position `q` has the marker right before it
   * and only letters and digits, at least one, from it to the end; the capture is the text from `q`.
   */
  lemma MatchAfterMeaning(s: string, marker: string, q: nat)
    requires marker != [] && !IsAlnum(marker[|marker| - 1])
    requires |marker| <= q < |s|
    ensures MatchAfter(s, marker) == Some(s[q..]) <==>
              SameIgnoringCase(s[q - |marker|..q], marker) && AllAlnum(s[q..])
  {
    if SameIgnoringCase(s[q - |marker|..q], marker) && AllAlnum(s[q..]) {
      assert UpperChar(s[q - 1]) == UpperChar(marker[|marker| - 1]) by {
        assert s[q - |marker|..q][|marker| - 1] == s[q - 1];
      }
      TrailingAlnumUnique(s, q);
    }
  }

  /** No match means no position qualifies. */
  lemma NoMatchMeaning(s: string, marker: string)
    requires marker != [] && !IsAlnum(marker[|marker| - 1])
    ensures MatchAfter(s, marker).None? <==>
              forall q :: |marker| <= q < |s| ==> !(SameIgnoringCase(s[q - |marker|..q], marker) && AllAlnum(s[q..]))
  {
    var p := TrailingAlnumStart(s);
    if MatchAfter(s, marker).Some? {
      MatchAfterMeaning(s, marker, p);
    } else {
      forall q | |marker| <= q < |s|
        ensures !(SameIgnoringCase(s[q - |marker|..q], marker) && AllAlnum(s[q..]))
      {
        MatchAfterMeaning(s, marker, q);
      }
    }
  }

  /** Text that ends with `verify.crocs.com/Q/` and a code also ends with `/Q/` and that code. */
  lemma VerifyImpliesApi(s: string)
    ensures MatchAfter(s, VerifyMarker).Some? ==> MatchAfter(s, ApiMarker) == MatchAfter(s, VerifyMarker)
  {
    var p := TrailingAlnumStart(s);
    if MatchAfter(s, VerifyMarker).Some? {
      var m := |VerifyMarker|;
      assert s[p - 3..p] == s[p - m..p][m - 3..];
      assert VerifyMarker[m - 3..] == ApiMarker;
    }
  }

  /**
   * Only two branches decide: the code after `/Q/`, else the code after `-Q-`, else the whole
   * trimmed text upper-cased. The `verify.crocs.com` branch is never reached and the bare-code
   * branch returns what the fallback returns.
   */
  lemma NormalizadoCases(texto: string)
    ensures Normalizado(texto) ==
              if MatchAfter(texto, ApiMarker).Some? then ToUpper(MatchAfter(texto, ApiMarker).value)
              else if MatchAfter(texto, ScannerMarker).Some? then ToUpper(MatchAfter(texto, ScannerMarker).value)
              else ToUpper(texto)
  {
    VerifyImpliesApi(texto);
  }

  /** Every normalised code is free of lower-case letters. */
  lemma NormalizedUppercase(raw: Option<string>)
    ensures NormalizarQR(raw).Some? ==> NoLowercase(NormalizarQR(raw).value)
  {
    if raw.Some? && raw.value != [] {
      var texto := Trim(raw.value);
      NormalizadoCases(texto);
      var api := MatchAfter(texto, ApiMarker);
      var scanner := MatchAfter(texto, ScannerMarker);
      ToUpperIdempotent(if api.Some? then api.value else if scanner.Some? then scanner.value else texto);
    }
  }

  /** Upper-casing keeps the trailing alphanumeric run where it is. */
  lemma TrailingAlnumUpper(s: string)
    ensures TrailingAlnumStart(ToUpper(s)) == TrailingAlnumStart(s)
  {
    var p := TrailingAlnumStart(s);
    var u := ToUpper(s);
    assert forall i :: 0 <= i < |s| - p ==> u[p..][i] == UpperChar(s[p..][i]);
    TrailingAlnumUnique(u, p);
  }

  /** Upper-casing commutes with slicing. */
  lemma ToUpperSlice(s: string, i: nat, j: nat)
    requires i <= j <= |s|
    ensures ToUpper(s)[i..j] == ToUpper(s[i..j])
  {
    var u := ToUpper(s);
    var t := s[i..j];
    var b := ToUpper(t);
    forall k | 0 <= k < j - i
      ensures u[i..j][k] == b[k]
    {
      assert t[k] == s[i + k];
    }
  }

  /** Upper-casing a text does not change whether it equals a marker ignoring case. */
  lemma SameIgnoringCaseUpper(a: string, marker: string)
    ensures SameIgnoringCase(ToUpper(a), marker) <==> SameIgnoringCase(a, marker)
  {
    ToUpperIdempotent(a);
    assert forall k :: 0 <= k < |a| ==> UpperChar(ToUpper(a)[k]) == ToUpper(ToUpper(a))[k] == UpperChar(a[k]);
  }

  /** Upper-casing a text does not change whether a marker's regular expression matches it. */
  lemma MatchAfterUpper(s: string, marker: string)
    ensures MatchAfter(ToUpper(s), marker).Some? <==> MatchAfter(s, marker).Some?
  {
    var p := TrailingAlnumStart(s);
    TrailingAlnumUpper(s);
    if p < |s| && |marker| <= p {
      ToUpperSlice(s, p - |marker|, p);
      SameIgnoringCaseUpper(s[p - |marker|..p], marker);
    }
  }

  /** A text of letters and digits only contains no marker ending in `/` or `-`. */
  lemma AlnumHasNoMatch(s: string, marker: string)
    requires AllAlnum(s)
    ensures MatchAfter(s, marker).None? || marker == []
  {
    TrailingAlnumUnique(s, 0);
  }

  /** Letters and digits are not whitespace, so a non-empty code has nothing to trim. */
  lemma CodeUntrimmed(code: string)
    requires code != [] && AllAlnum(code)
    ensures Trim(code) == code
  {
    assert IsAlnum(code[0]) && IsAlnum(code[|code| - 1]);
    TrimNoop(code);
  }

  /** A code captured after a marker is its own normal form once upper-cased. */
  lemma CodeIsFixed(code: string)
    requires code != [] && AllAlnum(code)
    ensures Normalizado(ToUpper(code)) == ToUpper(code)
  {
    var out := ToUpper(code);
    AllAlnumUpper(code);
    AlnumHasNoMatch(out, ApiMarker);
    AlnumHasNoMatch(out, ScannerMarker);
    NormalizadoCases(out);
    ToUpperIdempotent(code);
  }

  /** Trimmed text that matches neither marker is its own normal form once upper-cased. */
  lemma FallbackIsFixed(texto: string)
    requires texto == [] || (!IsWhitespace(texto[0]) && !IsWhitespace(texto[|texto| - 1]))
    requires MatchAfter(texto, ApiMarker).None? && MatchAfter(texto, ScannerMarker).None?
    ensures Trim(ToUpper(texto)) == ToUpper(texto)
    ensures Normalizado(ToUpper(texto)) == ToUpper(texto)
  {
    var out := ToUpper(texto);
    TrimNoop(out);
    ToUpperIdempotent(texto);
    MatchAfterUpper(texto, ApiMarker);
    MatchAfterUpper(texto, ScannerMarker);
    NormalizadoCases(out);
  }

  /** Normalising a non-empty normalised code again returns it unchanged. */
  lemma NormalizarQRIdempotent(raw: Option<string>)
    requires NormalizarQR(raw).Some? && NormalizarQR(raw).value != []
    ensures NormalizarQR(NormalizarQR(raw)) == NormalizarQR(raw)
  {
    var texto := Trim(raw.value);
    NormalizadoCases(texto);
    var api := MatchAfter(texto, ApiMarker);
    var scanner := MatchAfter(texto, ScannerMarker);
    if api.Some? {
      CodeIsFixed(api.value);
      AllAlnumUpper(api.value);
      CodeUntrimmed(ToUpper(api.value));
    } else if scanner.Some? {
      CodeIsFixed(scanner.value);
      AllAlnumUpper(scanner.value);
      CodeUntrimmed(ToUpper(scanner.value));
    } else {
      FallbackIsFixed(texto);
    }
  }

  /** Upper-casing keeps a text of letters and digits one. */
  lemma AllAlnumUpper(s: string)
    requires AllAlnum(s)
    ensures AllAlnum(ToUpper(s))
  {
  }

  /** On text that trimming leaves alone, normalising decides on the text itself. */
  lemma TrimmedCases(s: string)
    requires s != [] && Trim(s) == s
    ensures NormalizarQR(Some(s)) ==
              if MatchAfter(s, ApiMarker).Some? then Some(ToUpper(MatchAfter(s, ApiMarker).value))
              else if MatchAfter(s, ScannerMarker).Some? then Some(ToUpper(MatchAfter(s, ScannerMarker).value))
              else Some(ToUpper(s))
  {
    NormalizadoCases(s);
  }

  /** `<prefix><marker><code>` with a non-blank start has nothing to trim. */
  lemma FormUntrimmed(prefix: string, marker: string, code: string)
    requires code != [] && AllAlnum(code) && marker != [] && !IsWhitespace(marker[0])
    requires prefix == [] || !IsWhitespace(prefix[0])
    ensures Trim(prefix + marker + code) == prefix + marker + code
  {
    var s := prefix + marker + code;
    assert s[|s| - 1] == code[|code| - 1];
    assert s[0] == if prefix == [] then marker[0] else prefix[0];
    TrimNoop(s);
  }

  /** `<prefix><marker><code>` matches the marker's regular expression, capturing the code. */
  lemma FormMatches(prefix: string, marker: string, code: string)
    requires code != [] && AllAlnum(code) && marker != [] && !IsAlnum(marker[|marker| - 1])
    ensures MatchAfter(prefix + marker + code, marker) == Some(code)
  {
    var s := prefix + marker + code;
    var q := |prefix| + |marker|;
    assert s[q..] == code;
    assert s[q - |marker|..q] == marker;
    MatchAfterMeaning(s, marker, q);
  }

  /** The API form `<prefix>/Q/<code>` normalises to the code upper-cased. */
  lemma ApiFormGivesCode(prefix: string, code: string)
    requires code != [] && AllAlnum(code)
    requires prefix == [] || !IsWhitespace(prefix[0])
    ensures NormalizarQR(Some(prefix + ApiMarker + code)) == Some(ToUpper(code))
  {
    FormUntrimmed(prefix, ApiMarker, code);
    FormMatches(prefix, ApiMarker, code);
    TrimmedCases(prefix + ApiMarker + code);
  }

  /** The scanner form never matches the API marker: the character before the code's `Q` is `-`. */
  lemma ScannerFormNotApi(prefix: string, code: string)
    requires code != [] && AllAlnum(code)
    ensures MatchAfter(prefix + ScannerMarker + code, ApiMarker).None?
  {
    var s := prefix + ScannerMarker + code;
    var q := |prefix| + 3;
    FormMatches(prefix, ScannerMarker, code);
    assert TrailingAlnumStart(s) == q;
    assert s[q - 3] == '-';
    assert s[q - 3..q][0] == '-';
  }

  /** The scanner form `<prefix>-Q-<code>` normalises to the code upper-cased. */
  lemma ScannerFormGivesCode(prefix: string, code: string)
    requires code != [] && AllAlnum(code)
    requires prefix == [] || !IsWhitespace(prefix[0])
    ensures NormalizarQR(Some(prefix + ScannerMarker + code)) == Some(ToUpper(code))
  {
    FormUntrimmed(prefix, ScannerMarker, code);
    FormMatches(prefix, ScannerMarker, code);
    ScannerFormNotApi(prefix, code);
    TrimmedCases(prefix + ScannerMarker + code);
  }

  /**
   * A label read by the scanner, `httpsÑ--verify.crocs.com-Q-<code>`, and the same label's URL from
   * the API, `http://<host>/Q/<code>`, normalise to the same code.
   */
  lemma ScannerAndApiAgree(host: string, code: string)
    requires code != [] && AllAlnum(code)
    ensures NormalizarQR(Some("https\U{00D1}--verify.crocs.com" + ScannerMarker + code))
            == NormalizarQR(Some("http://" + host + ApiMarker + code))
            == Some(ToUpper(code))
  {
    ScannerFormGivesCode("https\U{00D1}--verify.crocs.com", code);
    assert "http://" + host + ApiMarker + code == ("http://" + host) + ApiMarker + code;
    ApiFormGivesCode("http://" + host, code);
  }

  /** The API entry point gives what the scanner entry point gives. */
  lemma DesdeApiIsNormalizarQR(qrUrl: Option<string>)
    ensures NormalizarQrDesdeApi(qrUrl) == NormalizarQR(qrUrl)
  {
  }
}
