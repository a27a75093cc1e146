/** The message the stream builds for an HTTP error response (`response_error_message`). */
module HttpErrors {
  import opened Wrappers
  import opened Digits

  /** Client errors are the 4xx class (section 15.5 of RFC 9110); every other code is labelled Server. */
  function ErrorLabel(code: int): (r: string)
    ensures r == "Client" || r == "Server"
    ensures r == "Client" <==> 400 <= code < 500
  {
    if 400 <= code < 500 then "Client" else "Server"
  }

  /** The path of the response URL, or the stream's configured path when the URL has none. */
  function EffectivePath(urlPath: string, configuredPath: string): (p: string)
    ensures urlPath != "" ==> p == urlPath
    ensures urlPath == "" ==> p == configuredPath
  {
    if urlPath != "" then urlPath else configuredPath
  }

  /** `"{status_code} {Client|Server} Error: {text} for path: {path}"`. */
  function ErrorMessage(code: int, text: string, urlPath: string, configuredPath: string): (m: string)
    ensures IntToString(code) <= m
    ensures |m| == |IntToString(code)| + 26 + |text| + |EffectivePath(urlPath, configuredPath)|
  {
    IntToString(code) + (" " + (ErrorLabel(code) + " Error: " + text + " for path: " + EffectivePath(urlPath, configuredPath)))
  }

  /** The message opens with the status code's text and a space; that text parses back to the code. */
  lemma ErrorMessageStartsWithCode(code: int, text: string, urlPath: string, configuredPath: string)
    ensures var m := ErrorMessage(code, text, urlPath, configuredPath);
      var n := |IntToString(code)|;
      && n < |m| && m[n] == ' ' && m[..n] == IntToString(code)
      && ParseInt(m[..n]) == Some(code)
  {
    IntToStringRoundTrip(code);
  }

  /** After the code comes the class label, then " Error: ", the body text, and the effective path last. */
  lemma ErrorMessageLayout(code: int, text: string, urlPath: string, configuredPath: string)
    ensures var m := ErrorMessage(code, text, urlPath, configuredPath);
      var n := |IntToString(code)|;
      var p := EffectivePath(urlPath, configuredPath);
      && n + 15 <= |m|
      && m[n + 1..n + 7] == (if 400 <= code < 500 then "Client" else "Server")
      && m[n + 7..n + 15] == " Error: "
      && |m| == n + 15 + |text| + 11 + |p|
      && m[n + 15..n + 15 + |text|] == text
      && m[|m| - |p|..] == p
      && m[|m| - |p| - 11..|m| - |p|] == " for path: "
  {
    LabelAt(code, text, urlPath, configuredPath);
    ErrorWordAt(code, text, urlPath, configuredPath);
    TextAt(code, text, urlPath, configuredPath);
    PathAt(code, text, urlPath, configuredPath);
  }

  lemma LabelAt(code: int, text: string, urlPath: string, configuredPath: string)
    ensures var n := |IntToString(code)|;
      ErrorMessage(code, text, urlPath, configuredPath)[n + 1..n + 7] == ErrorLabel(code)
  {
    var c := IntToString(code);
    var lbl := ErrorLabel(code);
    var p := EffectivePath(urlPath, configuredPath);
    var w := lbl + " Error: ";
    var y := w + text + " for path: ";
    SliceRight(c, " " + (y + p), 1, 7);
    SliceRight(" ", y + p, 0, 6);
    SliceLeft(y, p, 0, 6);
    SliceLeft(w + text, " for path: ", 0, 6);
    SliceLeft(w, text, 0, 6);
    SliceLeft(lbl, " Error: ", 0, 6);
    assert lbl[0..6] == lbl;
  }

  lemma ErrorWordAt(code: int, text: string, urlPath: string, configuredPath: string)
    ensures var n := |IntToString(code)|;
      ErrorMessage(code, text, urlPath, configuredPath)[n + 7..n + 15] == " Error: "
  {
    var c := IntToString(code);
    var lbl := ErrorLabel(code);
    var p := EffectivePath(urlPath, configuredPath);
    var w := lbl + " Error: ";
    var y := w + text + " for path: ";
    SliceRight(c, " " + (y + p), 7, 15);
    SliceRight(" ", y + p, 6, 14);
    SliceLeft(y, p, 6, 14);
    SliceLeft(w + text, " for path: ", 6, 14);
    SliceLeft(w, text, 6, 14);
    SliceRight(lbl, " Error: ", 0, 8);
    assert " Error: "[0..8] == " Error: ";
  }

  lemma TextAt(code: int, text: string, urlPath: string, configuredPath: string)
    ensures var n := |IntToString(code)|;
      var m := ErrorMessage(code, text, urlPath, configuredPath);
      && |m| == n + 15 + |text| + 11 + |EffectivePath(urlPath, configuredPath)|
      && m[n + 15..n + 15 + |text|] == text
  {
    var c := IntToString(code);
    var lbl := ErrorLabel(code);
    var p := EffectivePath(urlPath, configuredPath);
    var w := lbl + " Error: ";
    var y := w + text + " for path: ";
    var t := |text|;
    SliceRight(c, " " + (y + p), 15, 15 + t);
    SliceRight(" ", y + p, 14, 14 + t);
    SliceLeft(y, p, 14, 14 + t);
    SliceLeft(w + text, " for path: ", 14, 14 + t);
    SliceRight(w, text, 0, t);
    assert text[0..t] == text;
  }

  lemma PathAt(code: int, text: string, urlPath: string, configuredPath: string)
    ensures var m := ErrorMessage(code, text, urlPath, configuredPath);
      var p := EffectivePath(urlPath, configuredPath);
      && |m| >= |p| + 11
      && m[|m| - |p|..] == p
      && m[|m| - |p| - 11..|m| - |p|] == " for path: "
  {
    var c := IntToString(code);
    var p := EffectivePath(urlPath, configuredPath);
    var w := ErrorLabel(code) + " Error: ";
    var y := w + text + " for path: ";
    SuffixRight(c, " " + (y + p), 1 + |y|);
    SuffixRight(" ", y + p, |y|);
    SuffixRight(y, p, 0);
    SliceRight(c, " " + (y + p), 1 + |y| - 11, 1 + |y|);
    SliceRight(" ", y + p, |y| - 11, |y|);
    SliceLeft(y, p, |y| - 11, |y|);
    SliceRight(w + text, " for path: ", 0, 11);
    assert " for path: "[0..11] == " for path: ";
  }

  /** A slice of `x + y` that ends within `x` is a slice of `x`. */
  lemma SliceLeft(x: string, y: string, i: nat, j: nat)
    requires i <= j <= |x|
    ensures (x + y)[i..j] == x[i..j]
  {
  }

  /** A slice of `x + y` that starts after `x` is a slice of `y`. */
  lemma SliceRight(x: string, y: string, i: nat, j: nat)
    requires i <= j <= |y|
    ensures (x + y)[|x| + i..|x| + j] == y[i..j]
  {
  }

  /** A suffix of `x + y` that starts after `x` is a suffix of `y`. */
  lemma SuffixRight(x: string, y: string, i: nat)
    requires i <= |y|
    ensures (x + y)[|x| + i..] == y[i..]
  {
  }

  /** A code whose text has no space is fixed by the message: two equal messages share their code. */
  lemma ErrorMessageDeterminesCode(c1: int, t1: string, u1: string, p1: string, c2: int, t2: string, u2: string, p2: string)
    requires ErrorMessage(c1, t1, u1, p1) == ErrorMessage(c2, t2, u2, p2)
    ensures c1 == c2
  {
    var m := ErrorMessage(c1, t1, u1, p1);
    ErrorMessageStartsWithCode(c1, t1, u1, p1);
    ErrorMessageStartsWithCode(c2, t2, u2, p2);
    var n1, n2 := |IntToString(c1)|, |IntToString(c2)|;
    IntToStringShape(c1);
    IntToStringShape(c2);
    if n1 < n2 {
      NoSpaceInCode(c2, n1);
    } else if n2 < n1 {
      NoSpaceInCode(c1, n2);
    }
    IntToStringInjective(c1, c2);
  }

  lemma NoSpaceInCode(code: int, i: int)
    requires 0 <= i < |IntToString(code)|
    ensures IntToString(code)[i] != ' '
  {
    IntToStringShape(code);
    if code < 0 && i > 0 {
      assert IntToString(code)[i] == IntToString(code)[1..][i - 1];
    }
  }

  /** A 404 with body "not found": the label is Client and the text is exactly the template's. */
  lemma Example404(path: string)
    requires path != ""
    ensures ErrorMessage(404, "not found", path, "/control-center/reports-service/report")
      == "404 Client Error: not found for path: " + path
  {
    var x := "Client Error: not found for path: ";
    Code404Text();
    Literal1();
    Literal2();
    Literal3();
    assert ErrorMessage(404, "not found", path, "/control-center/reports-service/report")
      == "404" + (" " + (x + path));
    Assoc(" ", x, path);
    Assoc("404", " " + x, path);
    Assoc("404", " ", x);
    Literal4();
    Literal5();
  }

  lemma Assoc(a: string, b: string, c: string)
    ensures a + (b + c) == (a + b) + c
  {
  }

  lemma Code404Text()
    ensures IntToString(404) == "404"
  {
    assert NatToDigits(4, 1) == "4";
    assert NatToDigits(40, 2) == "40";
    assert NatToDigits(404, 3) == "404";
  }

  // Literal concatenations the example needs, one per lemma to keep each proof small.
  lemma Literal1() ensures "Client" + " Error: " == "Client Error: " {}
  lemma Literal2() ensures "Client Error: " + "not found" == "Client Error: not found" {}
  lemma Literal3() ensures "Client Error: not found" + " for path: " == "Client Error: not found for path: " {}
  lemma Literal4() ensures "404" + " " == "404 " {}
  lemma Literal5() ensures "404 " + "Client Error: not found for path: " == "404 Client Error: not found for path: " {}
}
