/** The announcement board (src/components/Announcement/Announcementboard.jsx): four
    built-in announcements, the stored ones appended after them once fetched, and a
    posted one put in front. */
module AnnouncementBoard {
  import opened Outcomes

  /** One announcement; posted ones carry no id. `createdAt` is an ISO time text. */
  datatype Announcement = Announcement(id: Option<int>, title: string, message: string, createdAt: string)

  /** Built-in announcement number `id`, stamped with the time the module was loaded. */
  function DefaultItem(id: int, loadedAt: string): (a: Announcement)
    requires 1 <= id <= 4
    ensures a.id == Some(id) && a.createdAt == loadedAt && a.title != ""
  {
    match id
    case 1 => Announcement(Some(1), "April Holidays", "April has some holidays, including Good Friday and Easter Monday!", loadedAt)
    case 2 => Announcement(Some(2), "Tamil New Year", "April 14 is Tamil New Year, a time for celebrations!", loadedAt)
    case 3 => Announcement(Some(3), "Office Maintenance", "Scheduled maintenance will take place on April 15th. Expect some downtime.", loadedAt)
    case 4 => Announcement(Some(4), "May 1st Holiday", "May 1st is a declared holiday for International Workers' Day.", loadedAt)
  }

  /** The four built-in announcements, in id order. */
  function Defaults(loadedAt: string): (d: seq<Announcement>)
    ensures |d| == 4
    ensures forall k :: 0 <= k < 4 ==> d[k].id == Some(k + 1) && d[k].createdAt == loadedAt
  {
    seq(4, k requires 0 <= k < 4 => DefaultItem(k + 1, loadedAt))
  }

  class AnnouncementBoard {
    const loadedAt: string
    var announcements: seq<Announcement>
    var title: string
    var message: string
    var loading: bool
    var alerts: seq<string>

    constructor (loadedAt: string)
      ensures this.loadedAt == loadedAt && announcements == Defaults(loadedAt)
      ensures title == "" && message == "" && !loading && alerts == []
    {
      this.loadedAt := loadedAt;
      announcements := Defaults(loadedAt);
      title, message := "", "";
      loading := false;
      alerts := [];
    }

    /** `fetchAnnouncements`: `fetched` is an error or the query's data, `None` for null.
        The result replaces the list with the defaults followed by the rows, whatever
        the list held before. */
    method FetchAnnouncements(fetched: Result<Option<seq<Announcement>>>)
      modifies this
      ensures fetched.Err? ==> announcements == old(announcements)
      ensures fetched.Ok? ==>
        announcements == Defaults(loadedAt) + (if fetched.value.Some? then fetched.value.value else [])
      ensures title == old(title) && message == old(message) && loading == old(loading) && alerts == old(alerts)
    {
      if fetched.Err? {
        return;
      }
      var data := if fetched.value.Some? then fetched.value.value else [];
      announcements := Defaults(loadedAt) + data;
    }

    /** `postAnnouncement`: `insertError` is the insert's error, if any; `now` is the
        time stamp given to the new item. */
    method PostAnnouncement(insertError: Option<string>, now: string)
      modifies this
      ensures !loading
      ensures insertError.Some? ==>
        && announcements == old(announcements) && title == old(title) && message == old(message)
        && alerts == old(alerts) + ["Failed to post announcement"]
      ensures insertError.None? ==>
        && announcements == [Announcement(None, old(title), old(message), now)] + old(announcements)
        && title == "" && message == ""
        && alerts == old(alerts) + ["Announcement posted successfully"]
    {
      loading := true;
      if insertError.Some? {
        alerts := alerts + ["Failed to post announcement"];
        loading := false;
        return;
      }
      alerts := alerts + ["Announcement posted successfully"];
      announcements := [Announcement(None, title, message, now)] + announcements;
      title := "";
      message := "";
      loading := false;
    }
  }
}
