/**
 * The photo date of lib/exif-utils.ts: the first of five EXIF date fields that holds a date
 * `new Date` accepts, else the file's modification time. The tag reader, `new Date(...)` and
 * `getFullYear()` are parameters of the model.
 */
module ExifDates {
  import opened Wrappers
  import opened Decimal
  import opened TimelineCards

  /** A JavaScript value read from a tag: a string, a number, or `undefined`. */
  datatype Raw = Str(s: string) | Num(n: int) | Undefined

  /** What a tag's `value` holds: one value or an array of them. */
  datatype TagValue = Scalar(v: Raw) | Array(items: seq<Raw>)

  /** A tag as ExifReader returns it. */
  datatype Tag = Tag(description: Raw, value: TagValue)

  /** JavaScript truthiness of a value: a non-empty string or a non-zero number. */
  predicate Truthy(v: Raw)
  {
    (v.Str? && v.s != "") || (v.Num? && v.n != 0)
  }

  /** Truthiness of a tag's `value`: an array is always truthy, even an empty one. */
  predicate ValueTruthy(v: TagValue)
  {
    v.Array? || Truthy(v.v)
  }

  /** `Array.isArray(value) ? value[0] : value`; reading past an empty array gives `undefined`. */
  function FirstValue(v: TagValue): Raw
  {
    if v.Array? then (if v.items == [] then Undefined else v.items[0]) else v.v
  }

  /**
   * The text tried for a tag: its description when truthy, otherwise its value (the first
   * element of an array) when truthy; `None` skips the field.
   */
  function DateString(tag: Tag): (r: Option<Raw>)
    ensures Truthy(tag.description) ==> r == Some(tag.description)
    ensures !Truthy(tag.description) && ValueTruthy(tag.value) ==> r == Some(FirstValue(tag.value))
    ensures r.None? <==> !Truthy(tag.description) && !ValueTruthy(tag.value)
  {
    if Truthy(tag.description) then Some(tag.description)
    else if ValueTruthy(tag.value) then Some(FirstValue(tag.value))
    else None
  }

  /** `^(\d{4}):(\d{2}):(\d{2})`: an EXIF date at the start of `t`. */
  predicate ExifDatePrefix(t: string)
  {
    && |t| >= 10
    && IsDigit(t[0]) && IsDigit(t[1]) && IsDigit(t[2]) && IsDigit(t[3]) && t[4] == ':'
    && IsDigit(t[5]) && IsDigit(t[6]) && t[7] == ':' && IsDigit(t[8]) && IsDigit(t[9])
  }

  /** The ISO form `dddd-dd-dd` at the start of `t`. */
  predicate IsoDatePrefix(t: string)
  {
    && |t| >= 10
    && IsDigit(t[0]) && IsDigit(t[1]) && IsDigit(t[2]) && IsDigit(t[3]) && t[4] == '-'
    && IsDigit(t[5]) && IsDigit(t[6]) && t[7] == '-' && IsDigit(t[8]) && IsDigit(t[9])
  }

  /** `dateStr.includes(":") && dateStr.length >= 19`: the text looks like an EXIF date-time. */
  predicate LooksLikeExif(s: string)
  {
    ':' in s && |s| >= 19
  }

  /**
   * `dateStr.substring(0, 19).replace(/^(\d{4}):(\d{2}):(\d{2})/, "$1-$2-$3")`: the first 19
   * characters, with the two colons of a leading EXIF date turned into dashes. Nothing else
   * changes, and the colons are put back by the reverse rewrite.
   */
  function NormalizeExifString(s: string): (r: string)
    requires |s| >= 19
    ensures |r| == 19
    ensures forall i :: 0 <= i < 19 && i != 4 && i != 7 ==> r[i] == s[i]
    ensures ExifDatePrefix(s) ==> IsoDatePrefix(r) && r[4 := ':'][7 := ':'] == s[..19]
    ensures !ExifDatePrefix(s) ==> r == s[..19]
  {
    var t := s[..19];
    if ExifDatePrefix(t) then t[4 := '-'][7 := '-'] else t
  }

  /** The value handed to `new Date(...)` for a field's text. */
  function DateInput(dateStr: Raw): Raw
  {
    if dateStr.Str? && LooksLikeExif(dateStr.s) then Str(NormalizeExifString(dateStr.s)) else dateStr
  }

  /** The fields tried, in order. */
  const DateFields: seq<string> := ["DateTimeOriginal", "DateTime", "DateTimeDigitized", "CreateDate", "ModifyDate"]

  /**
   * The date one field yields, if any: the field is present, has a text, and `parse` (`new
   * Date(...)` followed by the `isNaN(getTime())` test) accepts it.
   */
  function FieldDate(tags: map<string, Tag>, field: string, parse: Raw -> Option<Instant>): Option<Instant>
  {
    if field !in tags then None
    else
      var dateStr := DateString(tags[field]);
      if dateStr.None? then None else parse(DateInput(dateStr.value))
  }

  /**
   * The first of `fields` whose date is valid, with that date: every earlier field yields
   * none, and when no field yields one the result is `None`.
   */
  function FirstExifDate(tags: map<string, Tag>, fields: seq<string>, parse: Raw -> Option<Instant>): (r: Option<(nat, Instant)>)
    ensures r.Some? ==> r.value.0 < |fields| && FieldDate(tags, fields[r.value.0], parse) == Some(r.value.1)
    ensures r.Some? ==> forall k :: 0 <= k < r.value.0 ==> FieldDate(tags, fields[k], parse).None?
    ensures r.None? <==> forall k :: 0 <= k < |fields| ==> FieldDate(tags, fields[k], parse).None?
    decreases |fields|
  {
    if fields == [] then None
    else
      var d := FieldDate(tags, fields[0], parse);
      if d.Some? then Some((0, d.value))
      else
        var rest := FirstExifDate(tags, fields[1..], parse);
        if rest.Some? then Some((rest.value.0 + 1, rest.value.1)) else None
  }

  /** What `extractExifDate` resolves to. */
  datatype PhotoDate = PhotoDate(year: int, fullDate: Instant, source: string)

  /**
   * The photo date: the first EXIF field in priority order with a valid date, labelled with the
   * field's name; else the modification time; and the modification time labelled as an EXIF
   * error when the tags cannot be read (`tags == None`).
   */
  function PhotoDateOf(tags: Option<map<string, Tag>>, lastModified: Instant, parse: Raw -> Option<Instant>,
                       fullYear: Instant -> int): PhotoDate
  {
    if tags.None? then PhotoDate(fullYear(lastModified), lastModified, "File modification date (EXIF error)")
    else
      var found := FirstExifDate(tags.value, DateFields, parse);
      if found.Some? then PhotoDate(fullYear(found.value.1), found.value.1, "EXIF " + DateFields[found.value.0])
      else PhotoDate(fullYear(lastModified), lastModified, "File modification date")
  }

  /**
   * The photo date is never missing and its year is the full year of its date; the
   * modification time is used exactly when no field yields a date or the tags cannot be read.
   */
  lemma PhotoDateFallback(tags: Option<map<string, Tag>>, lastModified: Instant, parse: Raw -> Option<Instant>,
                          fullYear: Instant -> int)
    ensures var d := PhotoDateOf(tags, lastModified, parse, fullYear);
      && d.year == fullYear(d.fullDate)
      && (tags.None? ==> d.fullDate == lastModified && d.source == "File modification date (EXIF error)")
      && (tags.Some? ==>
           ((forall i :: 0 <= i < |DateFields| ==> FieldDate(tags.value, DateFields[i], parse).None?)
            <==> d == PhotoDate(fullYear(lastModified), lastModified, "File modification date")))
  {
    if tags.Some? {
      var found := FirstExifDate(tags.value, DateFields, parse);
      if found.Some? {
        assert PhotoDateOf(tags, lastModified, parse, fullYear).source[0] == 'E';
      }
    }
  }

  /**
   * A date labelled with an EXIF field comes from that field, and every field before it in
   * priority order yields none.
   */
  lemma PhotoDateField(tags: map<string, Tag>, lastModified: Instant, parse: Raw -> Option<Instant>,
                       fullYear: Instant -> int, i: nat)
    requires i < |DateFields|
    requires PhotoDateOf(Some(tags), lastModified, parse, fullYear).source == "EXIF " + DateFields[i]
    ensures Some(PhotoDateOf(Some(tags), lastModified, parse, fullYear).fullDate) == FieldDate(tags, DateFields[i], parse)
    ensures forall k :: 0 <= k < i ==> FieldDate(tags, DateFields[k], parse).None?
  {
    var found := FirstExifDate(tags, DateFields, parse);
    var d := PhotoDateOf(Some(tags), lastModified, parse, fullYear);
    if found.None? {
      assert false;
    }
    assert DateFields[i] == d.source[5..] == DateFields[found.value.0];
  }

  /** The first field with a date decides the photo date. */
  lemma PhotoDateAt(tags: map<string, Tag>, lastModified: Instant, parse: Raw -> Option<Instant>,
                    fullYear: Instant -> int, i: nat, date: Instant)
    requires i < |DateFields| && FieldDate(tags, DateFields[i], parse) == Some(date)
    requires forall k :: 0 <= k < i ==> FieldDate(tags, DateFields[k], parse).None?
    ensures PhotoDateOf(Some(tags), lastModified, parse, fullYear) == PhotoDate(fullYear(date), date, "EXIF " + DateFields[i])
  {
    var found := FirstExifDate(tags, DateFields, parse);
    assert found.Some?;
    assert found.value.0 == i;
  }

  /** With no field yielding a date, the modification time decides. */
  lemma PhotoDateNone(tags: map<string, Tag>, lastModified: Instant, parse: Raw -> Option<Instant>, fullYear: Instant -> int)
    requires forall k :: 0 <= k < |DateFields| ==> FieldDate(tags, DateFields[k], parse).None?
    ensures PhotoDateOf(Some(tags), lastModified, parse, fullYear) == PhotoDate(fullYear(lastModified), lastModified, "File modification date")
  {
  }

  /**
   * One pass of the field loop: the text of the field (description first, then value), the
   * EXIF rewrite when it looks like an EXIF date-time, and `new Date(...)`. `None` is a skipped
   * field, an invalid date or a caught exception alike: the loop moves on.
   */
  method TryField(tags: map<string, Tag>, field: string, parse: Raw -> Option<Instant>) returns (date: Option<Instant>)
    ensures date == FieldDate(tags, field, parse)
  {
    if field !in tags {
      return None;
    }
    var dateStr: Raw;
    if Truthy(tags[field].description) {
      dateStr := tags[field].description;
    } else if ValueTruthy(tags[field].value) {
      dateStr := FirstValue(tags[field].value);
    } else {
      return None;
    }
    if dateStr.Str? && LooksLikeExif(dateStr.s) {
      var isoDateStr := NormalizeExifString(dateStr.s);
      date := parse(Str(isoDateStr));
    } else {
      date := parse(dateStr);
    }
  }

  /**
   * `extractExifDate(file)`. `tags` is what `ExifReader.load` returns, `None` when reading the
   * file or its tags throws; `lastModified` is `new Date(file.lastModified)`. The fields are
   * tried in order and the first date found is returned at once.
   */
  method ExtractExifDate(tags: Option<map<string, Tag>>, lastModified: Instant, parse: Raw -> Option<Instant>,
                         fullYear: Instant -> int) returns (result: PhotoDate)
    ensures result == PhotoDateOf(tags, lastModified, parse, fullYear)
  {
    if tags.None? {
      var fallbackDate := lastModified;
      return PhotoDate(fullYear(fallbackDate), fallbackDate, "File modification date (EXIF error)");
    }
    var t := tags.value;
    for i := 0 to |DateFields|
      invariant forall k :: 0 <= k < i ==> FieldDate(t, DateFields[k], parse).None?
    {
      var field := DateFields[i];
      var date := TryField(t, field, parse);
      if date.Some? {
        PhotoDateAt(t, lastModified, parse, fullYear, i, date.value);
        return PhotoDate(fullYear(date.value), date.value, "EXIF " + field);
      }
    }
    PhotoDateNone(t, lastModified, parse, fullYear);
    var fallbackDate := lastModified;
    result := PhotoDate(fullYear(fallbackDate), fallbackDate, "File modification date");
  }
}
