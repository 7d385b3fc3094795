/**
  The file-type classifier of the message-attachment plugin: the table of
  file-type groups (an ordered map from group key to a label and a list of
  extensions) and the first-match-wins search of that table that names the
  group of an extension, with `general` when no group lists it.
 */
module FileTypes {

  /** One entry of the table, `key => { label, extensions }`. */
  datatype Group = Group(key: string, labelText: string, extensions: seq<string>)

  /** The table in PHP array order; the search goes through it front to back. */
  type Table = seq<Group>

  /** The group reported for an extension no group lists. */
  const General: string := "general"

  /**
    The compiled-in table before the `bp_msgat_file_types` filter runs.
    `translate` stands for the localisation call that produces each label.
   */
  function DefaultTable(translate: string -> string): (t: Table)
    ensures |t| == 5
    ensures t[0].key == "images" && t[1].key == "docs" && t[2].key == "archives"
    ensures t[3].key == "audio" && t[4].key == "video"
    ensures forall i :: 0 <= i < |t| ==> t[i].key != General
  {
    [ Group("images", translate("Images"), ["bmp", "png", "jpg", "jpeg", "gif"]),
      Group("docs", translate("Documents"),
            ["txt", "odt", "doc", "docx", "pdf", "xls", "xlsx", "ods", "ppt", "pptx"]),
      Group("archives", translate("Archives"), ["zip", "rar", "gz", "7z"]),
      Group("audio", translate("Audio"), ["wav", "wma", "m4a", "amr", "mp2", "mp3"]),
      Group("video", translate("Video"), ["mp4"]) ]
  }

  datatype Match = NoMatch | At(index: nat)

  /** The position of the earliest group whose extensions contain `ext`. */
  function FirstMatch(table: Table, ext: string): (m: Match)
    ensures m.At? ==> m.index < |table| && ext in table[m.index].extensions
    ensures m.At? ==> forall j :: 0 <= j < m.index ==> ext !in table[j].extensions
    ensures m.NoMatch? ==> forall j :: 0 <= j < |table| ==> ext !in table[j].extensions
  {
    if table == [] then NoMatch
    else if ext in table[0].extensions then At(0)
    else match FirstMatch(table[1..], ext)
      case NoMatch => NoMatch
      case At(i) => At(i + 1)
  }

  /** The group key `get_file_type_group` reports for `ext` against `table`. */
  function Classify(table: Table, ext: string): (key: string)
    ensures key == General || exists i :: 0 <= i < |table| && table[i].key == key
    ensures (forall j :: 0 <= j < |table| ==> ext !in table[j].extensions) ==> key == General
  {
    match FirstMatch(table, ext)
    case NoMatch => General
    case At(i) => table[i].key
  }

  /** Any position meeting the first-match conditions is the one FirstMatch finds. */
  lemma FirstMatchUnique(table: Table, ext: string, i: nat)
    requires i < |table| && ext in table[i].extensions
    requires forall j :: 0 <= j < i ==> ext !in table[j].extensions
    ensures FirstMatch(table, ext) == At(i)
  {
  }

  /**
    First match wins: the earliest group whose extensions contain `ext` names
    the result, whatever later groups hold.
   */
  lemma ClassifyFirstMatchWins(table: Table, ext: string, i: nat)
    requires i < |table| && ext in table[i].extensions
    requires forall j :: 0 <= j < i ==> ext !in table[j].extensions
    ensures Classify(table, ext) == table[i].key
  {
    FirstMatchUnique(table, ext, i);
  }

  /** Classification reports `general` exactly when no group lists `ext`, or a group whose key is `general` is the first that does. */
  lemma ClassifyGeneral(table: Table, ext: string)
    ensures Classify(table, ext) == General <==>
              FirstMatch(table, ext).NoMatch? || table[FirstMatch(table, ext).index].key == General
  {
  }

  /**
    Later groups are never consulted once a group matches: two tables that
    agree up to and including the first matching group classify alike.
   */
  lemma LaterGroupsNotConsulted(table: Table, other: Table, ext: string)
    requires FirstMatch(table, ext).At?
    requires FirstMatch(table, ext).index < |other|
    requires other[..FirstMatch(table, ext).index + 1] == table[..FirstMatch(table, ext).index + 1]
    ensures Classify(other, ext) == Classify(table, ext)
  {
    var i := FirstMatch(table, ext).index;
    assert forall j :: 0 <= j <= i ==> other[j] == table[j] by {
      forall j | 0 <= j <= i ensures other[j] == table[j] {
        assert other[..i + 1][j] == table[..i + 1][j];
      }
    }
    FirstMatchUnique(other, ext, i);
  }

  /** A filter that appends a group for an extension nobody lists makes that group win. */
  lemma AppendedGroupIsObserved(table: Table, g: Group, ext: string)
    requires forall j :: 0 <= j < |table| ==> ext !in table[j].extensions
    requires ext in g.extensions
    ensures Classify(table + [g], ext) == g.key
  {
    var t := table + [g];
    assert forall j :: 0 <= j < |table| ==> t[j] == table[j];
    ClassifyFirstMatchWins(t, ext, |table|);
  }

  // The unfiltered table, matched exactly: one sample extension per group.

  lemma DefaultJpgIsImages(translate: string -> string)
    ensures Classify(DefaultTable(translate), "jpg") == "images"
  {
    ClassifyFirstMatchWins(DefaultTable(translate), "jpg", 0);
  }

  lemma DefaultPdfIsDocs(translate: string -> string)
    ensures Classify(DefaultTable(translate), "pdf") == "docs"
  {
    ClassifyFirstMatchWins(DefaultTable(translate), "pdf", 1);
  }

  lemma Default7zIsArchives(translate: string -> string)
    ensures Classify(DefaultTable(translate), "7z") == "archives"
  {
    ClassifyFirstMatchWins(DefaultTable(translate), "7z", 2);
  }

  lemma DefaultMp3IsAudio(translate: string -> string)
    ensures Classify(DefaultTable(translate), "mp3") == "audio"
  {
    ClassifyFirstMatchWins(DefaultTable(translate), "mp3", 3);
  }

  lemma DefaultMp4IsVideo(translate: string -> string)
    ensures Classify(DefaultTable(translate), "mp4") == "video"
  {
    ClassifyFirstMatchWins(DefaultTable(translate), "mp4", 4);
  }

  /** An extension the compiled-in table does not list is `general`. */
  lemma DefaultUnlistedIsGeneral(translate: string -> string)
    ensures Classify(DefaultTable(translate), "exe") == General
  {
  }

  /** The comparison is exact: an upper-case extension falls through to `general`. */
  lemma DefaultClassificationIsCaseSensitive(translate: string -> string)
    ensures Classify(DefaultTable(translate), "JPG") == General
  {
  }

  /** A hook that adds `svg` in a new `vector` group is observed by the classifier. */
  lemma VectorHookObserved(translate: string -> string, labelText: string)
    ensures Classify(DefaultTable(translate) + [Group("vector", labelText, ["svg"])], "svg") == "vector"
  {
    var t := DefaultTable(translate);
    assert forall j :: 0 <= j < |t| ==> "svg" !in t[j].extensions;
    AppendedGroupIsObserved(t, Group("vector", labelText, ["svg"]), "svg");
  }
}
