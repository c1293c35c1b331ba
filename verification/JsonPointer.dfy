/** RFC 6901 JSON pointers as internal/webhook/ignore.go reads them. */
module JsonPointer {
  import opened Wrappers
  import opened JsonValues
  import opened Text

  /** Two passes, `~1` first. */
  function Unescape(seg: string): string {
    ReplaceAll(ReplaceAll(seg, "~1", "/"), "~0", "~")
  }

  /** One left-to-right scan that decodes each escape once: what section 4 of RFC 6901
      intends. A `~` that starts no escape stands for itself. */
  function Decode(seg: string): string {
    if seg == "" then ""
    else if "~0" <= seg then "~" + Decode(seg[2..])
    else if "~1" <= seg then "/" + Decode(seg[2..])
    else [seg[0]] + Decode(seg[1..])
  }

  /** Section 3 of RFC 6901: `~` is written `~0` and `/` is written `~1`. */
  function Escape(name: string): string {
    if name == "" then ""
    else (if name[0] == '~' then "~0" else if name[0] == '/' then "~1" else [name[0]]) + Escape(name[1..])
  }

  /** A reference token of the grammar in section 3 of RFC 6901. */
  predicate IsToken(seg: string) {
    seg == "" ||
    if seg[0] == '~' then |seg| > 1 && (seg[1] == '0' || seg[1] == '1') && IsToken(seg[2..])
    else seg[0] != '/' && IsToken(seg[1..])
  }

  function FieldPath(segments: seq<string>): Path {
    seq(|segments|, i requires 0 <= i < |segments| => Field(Unescape(segments[i])))
  }

  /** The path of a pointer: what JsonPointerToPath returns. */
  function PathOf(ptr: string): Result<Path> {
    if ptr == "" then Ok([])
    else if ptr[0] != '/' then Err
    else Ok(FieldPath(Split(ptr[1..], '/')))
  }

  method JsonPointerToPath(ptr: string) returns (res: Result<Path>)
    ensures res == PathOf(ptr)
    ensures res.Err? <==> ptr != "" && ptr[0] != '/'
  {
    if ptr == "" {
      return Ok([]);
    }
    if !("/" <= ptr) {
      return Err;
    }
    var segments := Split(ptr[1..], '/');
    var path: Path := [];
    for i := 0 to |segments|
      invariant path == FieldPath(segments[..i])
    {
      path := path + [Field(Unescape(segments[i]))];
    }
    assert segments[..|segments|] == segments;
    return Ok(path);
  }

  // ---- The order of the two passes ----

  lemma {:induction false} FirstPassHead(s: string)
    ensures ReplaceAll(s, "~1", "/") == "" <==> s == ""
    ensures s != "" && ReplaceAll(s, "~1", "/")[0] == '0' ==> s[0] == '0'
  {
  }

  /** On every string, well formed or not, the two passes are one scan. */
  lemma {:induction false} UnescapeIsOneScan(s: string)
    ensures Unescape(s) == Decode(s)
  {
    if s == "" {
    } else if "~1" <= s {
      var rest := ReplaceAll(s[2..], "~1", "/");
      UnescapeIsOneScan(s[2..]);
      assert s[1] == '1' && Decode(s) == "/" + Decode(s[2..]);
      assert ReplaceAll(s, "~1", "/") == ['/'] + rest;
      ReplaceAllConcatChar('/', rest, "~0", "~");
    } else if "~0" <= s {
      var rest := ReplaceAll(s[2..], "~1", "/");
      UnescapeIsOneScan(s[2..]);
      assert s[1..] == ['0'] + s[2..] && s[1..][1..] == s[2..];
      assert !("~1" <= s[1..]) by { assert s[1..][0] == '0'; }
      assert ReplaceAll(s, "~1", "/") == "~" + ("0" + rest);
      assert "~" + ("0" + rest) == "~0" + rest;
      ReplaceAllHit(rest, "~0", "~");
    } else {
      var rest := ReplaceAll(s[1..], "~1", "/");
      UnescapeIsOneScan(s[1..]);
      FirstPassHead(s[1..]);
      var once := [s[0]] + rest;
      assert !("~0" <= once);
      assert once[1..] == rest;
    }
  }

  // ---- Round trips ----

  lemma {:induction false} EscapeIsToken(name: string)
    ensures IsToken(Escape(name)) && '/' !in Escape(name)
    ensures Decode(Escape(name)) == name
  {
    if name != "" {
      var rest := Escape(name[1..]);
      EscapeIsToken(name[1..]);
      assert name == [name[0]] + name[1..];
      if name[0] == '~' || name[0] == '/' {
        assert Escape(name)[2..] == rest;
      } else {
        assert Escape(name)[1..] == rest;
      }
    }
  }

  lemma {:induction false} TokenRecovered(seg: string)
    requires IsToken(seg)
    ensures Escape(Decode(seg)) == seg && '/' !in seg
  {
    if seg == "" {
    } else if seg[0] == '~' {
      TokenRecovered(seg[2..]);
      assert seg == seg[..2] + seg[2..];
      var d := if seg[1] == '0' then "~" else "/";
      assert Decode(seg) == d + Decode(seg[2..]);
      assert (d + Decode(seg[2..]))[1..] == Decode(seg[2..]);
    } else {
      TokenRecovered(seg[1..]);
      assert seg == [seg[0]] + seg[1..];
      assert Decode(seg) == [seg[0]] + Decode(seg[1..]);
      assert ([seg[0]] + Decode(seg[1..]))[1..] == Decode(seg[1..]);
      DecodeHead(seg);
    }
  }

  lemma DecodeHead(seg: string)
    requires seg != "" && seg[0] != '~'
    ensures Decode(seg)[0] == seg[0]
  {
  }

  function EscapeAll(names: seq<string>): (tokens: seq<string>) {
    seq(|names|, i requires 0 <= i < |names| => Escape(names[i]))
  }

  /** The pointer that names a path of fields. */
  function Render(names: seq<string>): string {
    if names == [] then "" else "/" + Join(EscapeAll(names), '/')
  }

  function AsFields(names: seq<string>): Path {
    seq(|names|, i requires 0 <= i < |names| => Field(names[i]))
  }

  /** Rendering any field names, empty ones included, and reading the pointer back
      gives the same names. */
  lemma PointerRoundTrip(names: seq<string>)
    ensures PathOf(Render(names)) == Ok(AsFields(names))
  {
    if names != [] {
      var tokens := EscapeAll(names);
      forall token | token in tokens ensures '/' !in token {
        var i :| 0 <= i < |tokens| && tokens[i] == token;
        EscapeIsToken(names[i]);
      }
      SplitJoin(tokens, '/');
      assert Render(names)[1..] == Join(tokens, '/');
      forall i | 0 <= i < |names| ensures Unescape(tokens[i]) == names[i] {
        EscapeIsToken(names[i]);
        UnescapeIsOneScan(tokens[i]);
      }
      assert FieldPath(tokens) == AsFields(names);
    }
  }

  /** The grammar of section 3 of RFC 6901. */
  ghost predicate IsPointer(ptr: string) {
    ptr == "" || (ptr[0] == '/' && forall seg | seg in Split(ptr[1..], '/') :: IsToken(seg))
  }

  function Names(p: Path): seq<string>
    requires forall i | 0 <= i < |p| :: p[i].Field?
  {
    seq(|p|, i requires 0 <= i < |p| => p[i].name)
  }

  /** Every syntactically valid pointer is recovered from its path. */
  lemma PointerRecovered(ptr: string)
    requires IsPointer(ptr)
    ensures PathOf(ptr).Ok? && (forall i | 0 <= i < |PathOf(ptr).value| :: PathOf(ptr).value[i].Field?)
    ensures Render(Names(PathOf(ptr).value)) == ptr
  {
    if ptr != "" {
      var segments := Split(ptr[1..], '/');
      var path := PathOf(ptr).value;
      assert path == FieldPath(segments);
      forall i | 0 <= i < |segments| ensures Escape(Names(path)[i]) == segments[i] {
        assert segments[i] in segments;
        UnescapeIsOneScan(segments[i]);
        TokenRecovered(segments[i]);
      }
      assert EscapeAll(Names(path)) == segments;
      JoinSplit(ptr[1..], '/');
      assert ptr == "/" + ptr[1..];
    }
  }
}
