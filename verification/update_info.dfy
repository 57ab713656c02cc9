/**
 * Reading the release date of the latest update from the update-info
 * document. Every failure falls back to 0.
 */
module UpdateInfo {
  import opened Wrappers
  import opened Values

  /** The release date of the latest update, in whole seconds. */
  function GetUpdateTime(updateInfo: Fetched<Document>): (t: int)
    ensures updateInfo.Unavailable? ==> t == 0
    ensures updateInfo.Undecodable? ==> t == 0
    ensures updateInfo.Decoded? && NumberField(updateInfo.value, "release_date").None? ==> t == 0
    ensures updateInfo.Decoded? && NumberField(updateInfo.value, "release_date").Some? ==>
              var d := NumberField(updateInfo.value, "release_date").value;
              (0.0 <= d ==> t as real <= d < t as real + 1.0) && (d < 0.0 ==> t as real - 1.0 < d <= t as real)
  {
    match updateInfo
    case Unavailable => 0
    case Undecodable => 0
    case Decoded(doc) =>
      match NumberField(doc, "release_date")
      case None => 0
      case Some(d) => TruncateToInt(d)
  }
}
