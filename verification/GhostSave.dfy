/** Saving: choosing the track, writing it, and checking what was written. */
module GhostSave {
  import opened Bytes
  import opened GhostTrack
  import opened GhostCapture
  import R = GhostRecorder
  import opened GhostLayout
  import opened GhostFile
  import opened GhostConsole
  import opened GhostExport

  datatype Saved = Saved(bytes: seq<byte>, token: u32)

  /** When a save goes through: something to save, in the current format, on routes it can hold, with
      room for it. */
  predicate CanSave(s: R.State, capacity: nat, profile: byte) {
    var chosen := R.LatestSaveable(s);
    && !chosen.Nothing? && profile < PROFILES && chosen.track.version == VERSION_4 && RoutesValid(chosen.track)
    && DATA_OFFSET + SAMPLE_SIZE * |chosen.track.samples| <= capacity
  }

  /** Mirrors `exportLatest`. The self-check never rejects what passed the guards on storable routes, and
      importing the bytes gives the chosen track back. */
  method ExportLatest(s: R.State, capacity: nat, region: byte, profile: byte, name: seq<byte>, profileName: seq<byte>,
                      idHigh: u32, idLow: u32) returns (r: Result<Saved>)
    requires R.Inv(s) && region < 3 && name != [] && Printable(name[0])
    ensures r.Ok? <==> CanSave(s, capacity, profile)
    ensures r.Ok? ==>
              && r.value.token == R.LatestSaveable(s).token && Canonical(r.value.bytes, region)
              && Holds(r.value.bytes) && Install(r.value.bytes) == Kept(R.LatestSaveable(s).track)
              && |r.value.bytes| >= 0x100
              && Stamped(r.value.bytes, Stamp(region, profile, idHigh, if idHigh == 0 && idLow == 0 then 1 else idLow,
                                              PrintablePrefix(name, 48), PrintablePrefix(profileName, 16)))
  {
    hide R.Inv, Publishable, Exported, Canonical, Install, Holds, ValidRoute, R.LatestSaveable, Stamped;
    R.SelectedSound(s);
    var chosen := R.LatestSaveable(s);
    if chosen.Nothing? || profile >= PROFILES {
      return Err;
    }
    var t := chosen.track;
    PublishableFacts(t);
    if |t.samples| < MIN_SAMPLES || |t.samples| > MAX_SAMPLES || t.route.area > AREA_MAX ||
        t.route.episode > EPISODE_MAX ||
       t.route.variant < VARIANT_NONE || t.route.variant > VARIANT_MAX || |t.segments| == 0 ||
       |t.segments| > MAX_SEGMENTS ||
       t.endQf < t.startQf || t.version != VERSION_4 || |t.attachments| > MAX_ATTACHMENTS ||
       t.attachmentFlags > OVERFLOW {
      FirstRoute(t);
      return Err;
    }
    if t.endQf - t.startQf > MAX_DURATION_QF || DATA_OFFSET + DataSize(t) > capacity {
      return Err;
    }
    var title := CopyText(name, NAME_SIZE);
    var owner := CopyText(profileName, PROFILE_NAME_SIZE);
    var low := if idHigh == 0 && idLow == 0 then 1 else idLow;
    var stamp := Stamp(region, profile, idHigh, low, title, owner);
    ExportCanonicalExactly(t, stamp);
    var bytes := Exported(t, stamp);
    ExportedHolds(t, stamp);
    HoldsSize(t, stamp);
    var checked := ValidCanonicalFile(bytes, region);
    if !checked {
      return Err;
    }
    ImportOfExport(t, stamp);
    ExportStamped(t, stamp);
    return Ok(Saved(bytes, chosen.token));
  }

  lemma PublishableFacts(t: Track)
    requires Publishable(t)
    ensures MIN_SAMPLES <= |t.samples| <= MAX_SAMPLES && 0 < |t.segments| <= MAX_SEGMENTS && t.startQf <= t.endQf
    ensures |t.attachments| <= MAX_ATTACHMENTS && t.attachmentFlags <= OVERFLOW
    ensures t.endQf - t.startQf <= MAX_DURATION_QF
    ensures t.route == t.segments[0].route
  {
  }

  lemma FirstRoute(t: Track)
    requires Publishable(t)
    ensures RoutesValid(t) ==>
              && t.route.area <= AREA_MAX && t.route.episode <= EPISODE_MAX
              && VARIANT_NONE <= t.route.variant <= VARIANT_MAX
  {
    hide Publishable;
    PublishableFacts(t);
    if RoutesValid(t) {
      assert ValidRoute(t.segments[0].route);
    }
  }

  lemma HoldsSize(t: Track, s: Stamp)
    requires Writable(t) && StampOk(s)
    ensures |Exported(t, s)| < 0x1_0000_0000
  {
    hide Exported;
    FileParts(t, s);
  }
}
