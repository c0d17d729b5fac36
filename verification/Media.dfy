// controllers/scenario_specific_utils.hpp: attaching stored objects to a post,
// offer or message, all of them or none.
module Media {
  import opened Prelude

  datatype Info = Info(contentType: string, length: int) // what the object store knows of a key

  datatype Row = Row(uploader: int, key: string, file: string, mime: string, size: int)

  datatype Attached = Attached(id: int, key: string, file: string, mime: string, size: int)

  datatype Entity = OfPost(id: int) | OfOffer(id: int) | OfMessage(id: int)

  type MediaTable = map<int, Row>
  type Links = set<(Entity, int)> // the rows of post_media, offer_media and message_media

  /** The part of a key after its first underscore; all of it without one. */
  function FileName(key: string): string {
    if key == "" then ""
    else if '_' !in key then key
    else if key[0] == '_' then key[1..]
    else FileName(key[1..])
  }

  function Mime(info: Info): string {
    if info.contentType != "" then info.contentType else "application/octet-stream"
  }

  /** The name starts after the first underscore, or is the whole key if there is none. */
  lemma {:induction false} FileNameExactly(key: string)
    ensures '_' !in key ==> FileName(key) == key
    ensures forall k :: 0 <= k < |key| && key[k] == '_' && '_' !in key[..k] ==> FileName(key) == key[k + 1..]
    decreases |key|
  {
    if key != "" && '_' in key && key[0] != '_' {
      FileNameExactly(key[1..]);
      forall k | 0 <= k < |key| && key[k] == '_' && '_' !in key[..k]
        ensures FileName(key) == key[k + 1..]
      {
        assert key[1..][..k - 1] == key[..k][1..];
        assert key[1..][k - 1] == '_' && key[1..][k..] == key[k + 1..];
      }
    }
  }

  /** The keys that name stored objects, in order. */
  function Stored(keys: seq<string>, objects: map<string, Info>): (found: seq<string>)
    ensures |found| <= |keys|
    ensures forall k :: k in found <==> k in keys && k in objects
  {
    if keys == [] then []
    else Stored(keys[..|keys| - 1], objects) + if keys[|keys| - 1] in objects then [keys[|keys| - 1]] else []
  }

  lemma {:induction false} AllStored(keys: seq<string>, objects: map<string, Info>)
    ensures |Stored(keys, objects)| == |keys| <==> forall k :: k in keys ==> k in objects
    ensures |Stored(keys, objects)| == |keys| ==> Stored(keys, objects) == keys
  {
    if keys != [] {
      var init, last := keys[..|keys| - 1], keys[|keys| - 1];
      AllStored(init, objects);
      assert keys == init + [last];
    }
  }

  /** The media.storage_key column is unique. */
  ghost predicate UniqueKeys(media: MediaTable) {
    forall i, j :: i in media && j in media && media[i].key == media[j].key ==> i == j
  }

  /** The entity already has a link to a row with this key. */
  ghost predicate Linked(media: MediaTable, links: Links, entity: Entity, key: string) {
    exists i :: i in media && media[i].key == key && (entity, i) in links
  }

  /** The row an upsert leaves for a stored key. */
  ghost predicate Holds(media: MediaTable, objects: map<string, Info>, a: Attached) {
    && a.key in objects && a.id in media
    && a.file == FileName(a.key) && a.mime == Mime(objects[a.key]) && a.size == objects[a.key].length
    && media[a.id].key == a.key && media[a.id].file == a.file
    && media[a.id].mime == a.mime && media[a.id].size == a.size
  }

  /** Tables `media'`, `links'` are `media`, `links` with these attachments upserted and linked, and no other change. */
  ghost predicate Upserted(media: MediaTable, links: Links, media': MediaTable, links': Links,
                           objects: map<string, Info>, user: int, entity: Entity, done: seq<Attached>) {
    && (forall k :: 0 <= k < |done| ==> Holds(media', objects, done[k]) && (entity, done[k].id) in links')
    && (forall j, k :: 0 <= j < k < |done| ==> done[j].key != done[k].key)
    && (forall l :: l in links' ==> l in links || exists k :: 0 <= k < |done| && l == (entity, done[k].id))
    && links <= links'
    && (forall i :: i in media ==>
         i in media' && media'[i].key == media[i].key && media'[i].uploader == media[i].uploader)
    && (forall i :: i in media && !Among(done, i) ==> media'[i] == media[i])
    && (forall i :: i in media' && i !in media ==> Among(done, i) && media'[i].uploader == user)
  }

  /** What is stored of an object: its own type if it has one, its length, and the name in its key. */
  lemma HeldExactly(media: MediaTable, objects: map<string, Info>, a: Attached, k: nat)
    requires Holds(media, objects, a) && k < |a.key| && a.key[k] == '_' && '_' !in a.key[..k]
    ensures media[a.id].key == a.key && media[a.id].file == a.key[k + 1..]
    ensures media[a.id].size == objects[a.key].length
    ensures media[a.id].mime ==
              if objects[a.key].contentType == "" then "application/octet-stream" else objects[a.key].contentType
    ensures a == Attached(a.id, a.key, media[a.id].file, media[a.id].mime, media[a.id].size)
  {
    FileNameExactly(a.key);
  }

  /** A request's objects are all upserted and linked, in order, or the tables stay as they were. */
  ghost predicate Filed(media: MediaTable, links: Links, media': MediaTable, links': Links,
                        objects: map<string, Info>, user: int, entity: Entity, keys: seq<string>,
                        attached: seq<Attached>, ok: bool) {
    if ok then Keys(attached) == keys && Upserted(media, links, media', links', objects, user, entity, attached)
    else media' == media && links' == links
  }

  /** All keys name stored objects, none repeats and none is linked already. */
  ghost predicate Attaches(media: MediaTable, links: Links, objects: map<string, Info>, entity: Entity,
                           keys: seq<string>) {
    (forall k :: k in keys ==> k in objects) && Attachable(media, links, entity, keys)
  }

  ghost predicate Among(done: seq<Attached>, id: int) {
    exists k :: 0 <= k < |done| && done[k].id == id
  }

  class MediaStore {
    var media: MediaTable
    var links: Links
    var next: int

    constructor ()
      ensures Valid() && media == map[] && links == {}
    {
      media, links, next := map[], {}, 1;
    }

    ghost predicate Valid()
      reads this
    {
      && UniqueKeys(media)
      && (forall i :: i in media ==> i < next)
      && (forall l :: l in links ==> l.1 in media)
    }

    /** INSERT INTO media ... ON CONFLICT (storage_key) DO UPDATE ... RETURNING id. */
    method Upsert(user: int, key: string, file: string, mime: string, size: int) returns (id: int)
      requires Valid()
      modifies this`media, this`next
      ensures Valid() && next > old(next)
      ensures media.Keys == old(media.Keys) + {id}
      ensures media ==
                old(media)[id := Row(if id in old(media) then old(media)[id].uploader else user, key, file, mime, size)]
      ensures id in old(media) ==> old(media)[id].key == key
      ensures id !in old(media) ==> forall i :: i in old(media) ==> old(media)[i].key != key
    {
      var rows := Rows(media.Keys);
      RowsMatch(rows, media.Keys);
      id := next;
      var uploader := user;
      for i := 0 to |rows|
        invariant forall k :: 0 <= k < i && media[rows[k]].key == key ==>
                    id == rows[k] && uploader == media[rows[k]].uploader
        invariant || (id == next && uploader == user)
                  || (id in media && media[id].key == key && uploader == media[id].uploader)
      {
        if media[rows[i]].key == key {
          id, uploader := rows[i], media[rows[i]].uploader;
        }
      }
      assert forall i :: i in media ==> i in rows;
      media := media[id := Row(uploader, key, file, mime, size)];
      next := next + 1;
    }

    /** Upsert one stored object and link it; an existing link breaks the link table's primary key. */
    method AttachOne(key: string, objects: map<string, Info>, user: int, entity: Entity,
                     ghost m0: MediaTable, ghost l0: Links, ghost done: seq<Attached>)
      returns (attached: Option<Attached>)
      requires Valid() && key in objects && (forall l :: l in l0 ==> l.1 in m0)
      requires Upserted(m0, l0, media, links, objects, user, entity, done)
      modifies this
      ensures Valid() && next >= old(next)
      ensures attached.Some? ==>
                && attached.value.key == key
                && (Unlinked(m0, l0, entity, done) ==> Unlinked(m0, l0, entity, done + [attached.value]))
                && Upserted(m0, l0, media, links, objects, user, entity, done + [attached.value])
      ensures attached.None? ==> Linked(m0, l0, entity, key) || exists k :: 0 <= k < |done| && done[k].key == key
    {
      var file, mime, size := FileName(key), Mime(objects[key]), objects[key].length;
      ghost var m1 := media;
      var id := Upsert(user, key, file, mime, size);
      var a := Attached(id, key, file, mime, size);
      if (entity, id) in links {
        AlreadyLinked(m0, l0, m1, media, links, objects, user, entity, done, a);
        return None;
      }
      NotYetLinked(m0, l0, m1, media, links, objects, user, entity, done, a);
      links := links + {(entity, id)};
      return Some(a);
    }

    /** The loop over the object keys; the first error ends it. */
    method ProcessMediaAttachments(keys: seq<string>, objects: map<string, Info>, user: int, entity: Entity)
      returns (processed: Option<seq<Attached>>)
      requires Valid()
      modifies this
      ensures Valid() && next >= old(next)
      ensures processed.Some? <==> Attachable(old(media), old(links), entity, Stored(keys, objects))
      ensures processed.Some? ==>
                && Keys(processed.value) == Stored(keys, objects)
                && Upserted(old(media), old(links), media, links, objects, user, entity, processed.value)
    {
      hide Upserted, Unlinked, Attachable, Linked, UniqueKeys, Keys;
      var done: seq<Attached> := [];
      ghost var m0, l0 := media, links;
      NothingYet(m0, l0, objects, user, entity);
      for i := 0 to |keys|
        invariant Valid() && next >= old(next)
        invariant Keys(done) == Stored(keys[..i], objects)
        invariant Unlinked(m0, l0, entity, done)
        invariant Upserted(m0, l0, media, links, objects, user, entity, done)
      {
        var key := keys[i];
        StoredNext(keys, i, objects);
        if key !in objects {
          continue;
        }
        var attached := AttachOne(key, objects, user, entity, m0, l0, done);
        if attached.None? {
          Blocked(m0, l0, entity, done, key, Stored(keys, objects));
          return None;
        }
        KeysNext(done, attached.value);
        done := done + [attached.value];
      }
      assert keys[..|keys|] == keys;
      Unblocked(m0, l0, entity, done);
      return Some(done);
    }

    /**
     * What creating a post, offer or message with attachments does: everything
     * is upserted and linked, or the transaction is rolled back.
     */
    method Attach(keys: seq<string>, objects: map<string, Info>, user: int, entity: Entity)
      returns (ok: bool, attached: seq<Attached>)
      requires Valid()
      modifies this
      ensures Valid()
      ensures ok <==> Attaches(old(media), old(links), objects, entity, keys)
      ensures Filed(old(media), old(links), media, links, objects, user, entity, keys, attached, ok)
    {
      AllStored(keys, objects);
      var m0, l0 := media, links;
      var processed := ProcessMediaAttachments(keys, objects, user, entity);
      ok, attached := processed.Some? && |processed.value| == |keys|, [];
      if ok {
        attached := processed.value;
      } else {
        media, links := m0, l0;
      }
    }
  }

  function Keys(done: seq<Attached>): (keys: seq<string>)
    ensures |keys| == |done| && forall k :: 0 <= k < |done| ==> keys[k] == done[k].key
  {
    seq(|done|, k requires 0 <= k < |done| => done[k].key)
  }

  lemma KeysNext(done: seq<Attached>, a: Attached)
    ensures Keys(done + [a]) == Keys(done) + [a.key]
  {
  }

  ghost predicate Unlinked(media: MediaTable, links: Links, entity: Entity, done: seq<Attached>) {
    && (forall j, k :: 0 <= j < k < |done| ==> done[j].key != done[k].key)
    && forall k :: 0 <= k < |done| ==> !Linked(media, links, entity, done[k].key)
  }

  lemma NothingYet(media: MediaTable, links: Links, objects: map<string, Info>, user: int, entity: Entity)
    ensures Upserted(media, links, media, links, objects, user, entity, []) && Unlinked(media, links, entity, [])
    ensures Keys([]) == []
  {
  }

  lemma Unblocked(media: MediaTable, links: Links, entity: Entity, done: seq<Attached>)
    requires Unlinked(media, links, entity, done)
    ensures Attachable(media, links, entity, Keys(done))
  {
  }

  lemma Blocked(media: MediaTable, links: Links, entity: Entity, done: seq<Attached>, key: string, all: seq<string>)
    requires Keys(done) + [key] <= all
    requires Linked(media, links, entity, key) || exists k :: 0 <= k < |done| && done[k].key == key
    ensures !Attachable(media, links, entity, all)
  {
    assert all[|done|] == key;
    if k :| 0 <= k < |done| && done[k].key == key {
      assert all[k] == Keys(done)[k] == all[|done|];
    }
  }

  /** No key twice and none linked already. */
  ghost predicate Attachable(media: MediaTable, links: Links, entity: Entity, keys: seq<string>) {
    Distinct(keys) && forall k :: 0 <= k < |keys| ==> !Linked(media, links, entity, keys[k])
  }

  lemma StoredSnoc(keys: seq<string>, key: string, objects: map<string, Info>)
    ensures Stored(keys + [key], objects) == Stored(keys, objects) + if key in objects then [key] else []
  {
    assert (keys + [key])[..|keys|] == keys;
  }

  lemma StoredNext(keys: seq<string>, i: nat, objects: map<string, Info>)
    requires i < |keys|
    ensures Stored(keys[..i + 1], objects) == Stored(keys[..i], objects) + if keys[i] in objects then [keys[i]] else []
    ensures Stored(keys[..i + 1], objects) <= Stored(keys, objects)
  {
    hide Stored;
    assert keys[..i + 1] == keys[..i] + [keys[i]];
    StoredSnoc(keys[..i], keys[i], objects);
    StoredPrefix(keys, i + 1, objects);
  }

  lemma {:induction false} StoredPrefix(keys: seq<string>, i: nat, objects: map<string, Info>)
    requires i <= |keys|
    ensures Stored(keys[..i], objects) <= Stored(keys, objects)
  {
    if i == |keys| {
      assert keys[..i] == keys;
    } else {
      var init := keys[..|keys| - 1];
      StoredPrefix(init, i, objects);
      assert init[..i] == keys[..i];
    }
  }

  /** A link in the way is one of this loop, for the same key, or an old one. */
  lemma AlreadyLinked(m0: MediaTable, l0: Links, m1: MediaTable, m2: MediaTable, links: Links,
                      objects: map<string, Info>,
                      user: int, entity: Entity, done: seq<Attached>, a: Attached)
    requires Upserted(m0, l0, m1, links, objects, user, entity, done)
    requires (forall l :: l in l0 ==> l.1 in m0) && m1.Keys <= m2.Keys
    requires forall i :: i in m1 ==> m2[i].key == m1[i].key
    requires a.id in m2 && m2[a.id].key == a.key && (entity, a.id) in links
    ensures Linked(m0, l0, entity, a.key) || exists k :: 0 <= k < |done| && done[k].key == a.key
  {
  }

  /** An upserted key was not linked before, if its row is not linked now. */
  lemma WasUnlinked(m0: MediaTable, l0: Links, m1: MediaTable, m2: MediaTable, links: Links, entity: Entity, id: int,
                    key: string)
    requires UniqueKeys(m2) && l0 <= links && id in m2 && m2[id].key == key && (entity, id) !in links
    requires forall i :: i in m0 ==> i in m1 && m1[i].key == m0[i].key
    requires forall i :: i in m1 ==> i in m2 && m2[i].key == m1[i].key
    ensures !Linked(m0, l0, entity, key)
  {
    forall i | i in m0 && m0[i].key == key
      ensures (entity, i) !in l0
    {
      assert i in m1 && m1[i].key == key;
      assert i in m2 && m2[i].key == key;
      assert i == id;
    }
  }

  lemma AmongMore(done: seq<Attached>, a: Attached, i: int)
    ensures Among(done + [a], i) <==> Among(done, i) || i == a.id
  {
    var more := done + [a];
    assert more[|done|] == a;
    if k :| 0 <= k < |done| && done[k].id == i {
      assert more[k].id == i;
    }
  }

  lemma StillHeld(m1: MediaTable, m2: MediaTable, objects: map<string, Info>, d: Attached, a: Attached, row: Row)
    requires UniqueKeys(m2) && Holds(m1, objects, d) && m2 == m1[a.id := row] && row.key == a.key
    requires d.id != a.id
    ensures d.key != a.key && Holds(m2, objects, d)
  {
    assert m2[d.id] == m1[d.id] && m2[a.id] == row;
  }

  lemma LinksMore(l0: Links, links: Links, entity: Entity, done: seq<Attached>, a: Attached)
    requires forall l :: l in links ==> l in l0 || exists k :: 0 <= k < |done| && l == (entity, done[k].id)
    ensures forall l :: l in links + {(entity, a.id)} ==>
              l in l0 || exists k :: 0 <= k < |done + [a]| && l == (entity, (done + [a])[k].id)
  {
    var more := done + [a];
    forall l | l in links + {(entity, a.id)}
      ensures l in l0 || exists k :: 0 <= k < |more| && l == (entity, more[k].id)
    {
      if l in links && l !in l0 {
        var k :| 0 <= k < |done| && l == (entity, done[k].id);
        assert l == (entity, more[k].id);
      } else if l !in l0 {
        assert l == (entity, more[|done|].id);
      }
    }
  }

  lemma NotYetLinked(m0: MediaTable, l0: Links, m1: MediaTable, m2: MediaTable, links: Links,
                     objects: map<string, Info>,
                     user: int, entity: Entity, done: seq<Attached>, a: Attached)
    requires Upserted(m0, l0, m1, links, objects, user, entity, done)
    requires UniqueKeys(m1) && UniqueKeys(m2)
    requires a.key in objects && a.file == FileName(a.key)
    requires a.mime == Mime(objects[a.key]) && a.size == objects[a.key].length
    requires m2 == m1[a.id := Row(if a.id in m1 then m1[a.id].uploader else user, a.key, a.file, a.mime, a.size)]
    requires a.id in m1 ==> m1[a.id].key == a.key
    requires (entity, a.id) !in links
    ensures Upserted(m0, l0, m2, links + {(entity, a.id)}, objects, user, entity, done + [a])
    ensures !Linked(m0, l0, entity, a.key)
  {
    assert Holds(m2, objects, a);
    hide UniqueKeys, Linked, Holds, FileName, Mime;
    var row := m2[a.id];
    forall k | 0 <= k < |done|
      ensures done[k].key != a.key && done[k].id != a.id && Holds(m2, objects, done[k])
    {
      assert (entity, done[k].id) in links;
      StillHeld(m1, m2, objects, done[k], a, row);
    }
    forall i
      ensures Among(done + [a], i) <==> Among(done, i) || i == a.id
    {
      AmongMore(done, a, i);
    }
    LinksMore(l0, links, entity, done, a);
    WasUnlinked(m0, l0, m1, m2, links, entity, a.id, a.key);
  }
}
