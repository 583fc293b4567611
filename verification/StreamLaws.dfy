/** What one frame of the event stream does to its reader, whoever wrote it. */
module StreamLaws {
  import opened Outcomes
  import opened EventStream

  /**
   A frame with a type and data is delivered exactly when its data parses; it fails the reader exactly when the data
   does not parse or the handler refuses the event. Any other frame delivers nothing and fails nothing. The id a frame
   names becomes the reader's in every case.
   */
  lemma FrameDeliversExactlyWhen<J>(frame: string, reader: Reader<J>, client: Client<J>)
    requires !reader.failed
    ensures var fields, after := Fields(Split(LineBreak, frame)), DeliverFrame(frame, reader, client);
      var kind, text, id := Field(fields, "event"), Field(fields, "data"), Field(fields, "id");
      var parsed := client.parse(text);
      && after.eventId == (if id == "" then reader.eventId else client.number(id))
      && (if kind == "" || text == "" || parsed == None then after.delivered == reader.delivered
          else after.delivered == reader.delivered + [Delivered(after.eventId, kind, parsed.value)])
      && (after.failed <==>
            kind != "" && text != ""
            && (parsed == None || !client.accepts(Delivered(after.eventId, kind, parsed.value))))
  {
    hide Fields, Split, Field;
  }

  /** The white space the platform strips, by code point. */
  lemma SpacesAre(c: char)
    ensures IsSpace(c) <==>
      var code := c as int;
      9 <= code <= 13 || 8192 <= code <= 8202 || code in [32, 160, 5760, 8232, 8233, 8239, 8287, 12288, 65279]
  {
  }

  /** Only the white space after the colon is stripped, and all of it. */
  lemma {:induction false} TrimmedIsRest(s: string)
    ensures exists k: nat :: k <= |s| && IsTrimmedAt(s, k)
  {
    if s == "" || !IsSpace(s[0]) {
      assert IsTrimmedAt(s, 0);
    } else {
      TrimmedIsRest(s[1..]);
      var k: nat :| k <= |s[1..]| && IsTrimmedAt(s[1..], k);
      assert IsTrimmedAt(s, k + 1) by {
        forall i | 0 <= i < k + 1 ensures IsSpace(s[i]) {
          assert i > 0 ==> s[i] == s[1..][i - 1];
        }
      }
    }
  }

  /** k characters of white space have been stripped, and what is left starts with none. */
  ghost predicate IsTrimmedAt(s: string, k: nat)
    requires k <= |s|
  {
    && TrimStart(s) == s[k..]
    && (forall i :: 0 <= i < k ==> IsSpace(s[i]))
    && (k < |s| ==> !IsSpace(s[k]))
  }
}
