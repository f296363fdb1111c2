/** Writing a value and parsing the text gives the value back. */
module JsonRoundTrip {
  import opened Optional
  import opened JsonValue
  import opened JsonSyntax
  import opened JsonWriting
  import opened JsonScalars
  import opened JsonFast
  import opened JsonStyled
  import opened JsonReader

  /** Values that are read back are within 32 bits. */
  lemma {:induction false} PrintableInRange(scan: string -> Option<real>, show: Show, v: Json)
    requires Printable(scan, show, v)
    ensures InRange(v)
  {
    match v
    case Arr(items) =>
      forall i | 0 <= i < |items| ensures InRange(items[i]) { PrintableInRange(scan, show, items[i]); }
    case Obj(ms) =>
      forall i | 0 <= i < |ms| ensures InRange(ms[i].value) { PrintableInRange(scan, show, ms[i].value); }
    case _ =>
  }

  /** The fast writer and then the reader, each a fresh object. */
  method FastThenParse(style: Style, options: Options, v: Json) returns (ok: bool, back: Json)
    requires Printable(options.scan, style.show, v) && !options.strictRoot
    ensures ok && back == Norm(v)
  {
    PrintableInRange(options.scan, style.show, v);
    FastRoundTrip(options, style, v);
    var w := new FastWriter(style);
    var text := w.Write(v);
    var r := new Reader(options);
    ok, back := r.Parse(text, Null);
  }

  /** The styled writer and then the reader. */
  method StyledThenParse(show: Show, options: Options, v: Json) returns (ok: bool, back: Json)
    requires Printable(options.scan, show, v) && !options.strictRoot
    ensures ok && back == Norm(v)
  {
    PrintableInRange(options.scan, show, v);
    StyledRoundTrip(options, show, v);
    var w := new StyledWriter(show);
    var text := w.Write(v);
    var r := new Reader(options);
    ok, back := r.Parse(text, Null);
  }

  /** In strict mode only arrays and objects are documents, whichever writer printed them. */
  lemma {:induction false} StrictRoots(o: Options, st: Style, v: Json)
    requires o.strictRoot && Printable(o.scan, st.show, v)
    ensures ParseDocument(o, FastText(st, v) + "\n").Some? <==> v.Arr? || v.Obj?
    ensures ParseDocument(o, StyledText(st.show, "", 0, v) + "\n").Some? <==> v.Arr? || v.Obj?
  {
    FastRoundTrip(o, st, v);
    StyledRoundTrip(o, st.show, v);
  }
}
