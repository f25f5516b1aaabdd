/**
 * src/components/VideoForm.jsx: the "new video" form. A series carries a
 * list of seasons numbered 1..n, each with its chapters; the form edits
 * that list and posts the video.
 */
module VideoForm {
  import opened Wrappers
  import opened SeasonEdits

  /** The zeroed watch progress attached to a new series. */
  datatype InitialProgress = InitialProgress(lastSeason: nat, lastChapter: nat, lastTime: nat, completed: bool)

  /** The body posted to /api/videos. */
  datatype VideoData = VideoData(
    titulo: string, descripcion: string, url: string, tipo: string, customThumbnail: string,
    seasons: Option<seq<FormSeason>>, subtipo: Option<string>, subcategoria: Option<string>,
    watchProgress: Option<InitialProgress>)

  const InitialSeasons: seq<FormSeason> := [FormSeason(1, [EmptyChapter])]

  datatype ChapterField = Title | Url

  class VideoFormState {
    var titulo: string
    var descripcion: string
    var url: string
    var tipo: string
    var subtipo: string
    var subcategoria: string
    var customThumbnail: string
    var mensaje: string
    var seasons: seq<FormSeason>

    /** The seasons are numbered 1..n. */
    predicate Valid()
      reads this
    {
      NumberedInOrder(seasons)
    }

    /** The initial form: a film, with one first season holding one empty chapter. */
    constructor ()
      ensures Valid() && tipo == "pelicula" && subtipo == "serie" && subcategoria == "Netflix"
      ensures titulo == "" && descripcion == "" && url == "" && customThumbnail == "" && mensaje == ""
      ensures seasons == InitialSeasons
    {
      titulo, descripcion, url, tipo := "", "", "", "pelicula";
      subtipo, subcategoria, customThumbnail, mensaje := "serie", "Netflix", "", "";
      seasons := InitialSeasons;
    }

    /** handleAddSeason: season len+1 with one empty chapter. */
    method AddSeason()
      requires Valid()
      modifies this`seasons
      ensures Valid() && seasons == SeasonEdits.AddSeason(old(seasons))
    {
      seasons := SeasonEdits.AddSeason(seasons);
    }

    /** handleRemoveSeason: the rest are renumbered 1..n. */
    method RemoveSeason(index: int)
      modifies this`seasons
      ensures Valid() && seasons == SeasonEdits.RemoveSeason(old(seasons), index)
    {
      seasons := SeasonEdits.RemoveSeason(seasons, index);
    }

    /** handleAddChapter: an empty chapter at the end of that season only. */
    method AddChapter(si: nat)
      requires Valid() && si < |seasons|
      modifies this`seasons
      ensures Valid() && seasons == WithChapters(old(seasons), si, old(seasons)[si].chapters + [EmptyChapter])
    {
      seasons := WithChapters(seasons, si, seasons[si].chapters + [EmptyChapter]);
    }

    /** handleChapterChange: one field of one chapter. */
    method ChapterChange(si: nat, ci: nat, field: ChapterField, value: string)
      requires Valid() && si < |seasons| && ci < |seasons[si].chapters|
      modifies this`seasons
      ensures Valid()
      ensures var c := old(seasons)[si].chapters[ci];
        seasons == WithChapters(old(seasons), si, old(seasons)[si].chapters[ci := if field == Title then c.(title := value) else c.(url := value)])
    {
      var c := seasons[si].chapters[ci];
      var updated := if field == Title then c.(title := value) else c.(url := value);
      seasons := WithChapters(seasons, si, seasons[si].chapters[ci := updated]);
    }

    /** handleRemoveChapter: filters out that index of that season only. */
    method RemoveChapter(si: nat, ci: int)
      requires Valid() && si < |seasons|
      modifies this`seasons
      ensures Valid() && seasons == WithChapters(old(seasons), si, FilterOutIndex(old(seasons)[si].chapters, ci))
    {
      seasons := WithChapters(seasons, si, FilterOutIndex(seasons[si].chapters, ci));
    }

    /** handleMoveChapterUp: a no-op for the first chapter. */
    method MoveChapterUp(si: nat, ci: int)
      requires Valid() && si < |seasons| && ci < |seasons[si].chapters|
      modifies this`seasons
      ensures Valid()
      ensures ci <= 0 ==> seasons == old(seasons)
      ensures ci > 0 ==> seasons == WithChapters(old(seasons), si, Swapped(old(seasons)[si].chapters, ci - 1, ci))
      ensures multiset(seasons[si].chapters) == multiset(old(seasons)[si].chapters)
    {
      if ci <= 0 {
        return;
      }
      SwappedPermutes(seasons[si].chapters, ci - 1, ci);
      seasons := WithChapters(seasons, si, Swapped(seasons[si].chapters, ci - 1, ci));
    }

    /** handleMoveChapterDown: a no-op for the last chapter. */
    method MoveChapterDown(si: nat, ci: nat)
      requires Valid() && si < |seasons|
      modifies this`seasons
      ensures Valid()
      ensures ci >= |old(seasons)[si].chapters| - 1 ==> seasons == old(seasons)
      ensures ci < |old(seasons)[si].chapters| - 1 ==> seasons == WithChapters(old(seasons), si, Swapped(old(seasons)[si].chapters, ci + 1, ci))
      ensures multiset(seasons[si].chapters) == multiset(old(seasons)[si].chapters)
    {
      if ci >= |seasons[si].chapters| - 1 {
        return;
      }
      SwappedPermutes(seasons[si].chapters, ci + 1, ci);
      seasons := WithChapters(seasons, si, Swapped(seasons[si].chapters, ci + 1, ci));
    }

    /** The body handleSubmit posts. */
    function Data(): (r: VideoData)
      reads this
      ensures r.titulo == titulo && r.descripcion == descripcion && r.url == url && r.tipo == tipo && r.customThumbnail == customThumbnail
      ensures r.seasons.Some? <==> tipo == "serie"
      ensures r.subtipo.Some? <==> tipo == "serie"
      ensures r.subcategoria.Some? <==> tipo == "serie"
      ensures r.watchProgress.Some? <==> tipo == "serie"
      ensures tipo == "serie" ==> r.seasons == Some(seasons) && r.watchProgress == Some(InitialProgress(0, 0, 0, false))
    {
      var base := VideoData(titulo, descripcion, url, tipo, customThumbnail, None, None, None, None);
      if tipo == "serie" then
        base.(seasons := Some(seasons), subtipo := Some(subtipo), subcategoria := Some(subcategoria),
              watchProgress := Some(InitialProgress(0, 0, 0, false)))
      else base
    }

    /** handleSubmit: `posted` is the outcome of the POST; success resets the form. */
    method Submit(posted: bool) returns (body: VideoData)
      requires Valid()
      modifies this
      ensures body == old(Data())
      ensures Valid()
      ensures posted ==> (
        && mensaje == "✅ Video creado correctamente" && seasons == InitialSeasons && tipo == "pelicula"
        && titulo == "" && descripcion == "" && url == "" && subtipo == "serie" && subcategoria == "Netflix" && customThumbnail == "")
      ensures !posted ==> (
        && mensaje == "❌ Error al crear el video" && seasons == old(seasons) && tipo == old(tipo) && titulo == old(titulo)
        && descripcion == old(descripcion) && url == old(url) && subtipo == old(subtipo) && subcategoria == old(subcategoria)
        && customThumbnail == old(customThumbnail))
    {
      body := Data();
      if posted {
        mensaje := "✅ Video creado correctamente";
        titulo, descripcion, url, tipo := "", "", "", "pelicula";
        subtipo, subcategoria, customThumbnail := "serie", "Netflix", "";
        seasons := InitialSeasons;
      } else {
        mensaje := "❌ Error al crear el video";
      }
    }
  }
}
