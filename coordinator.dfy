/** The coordinator actor (`SmActor` of src/sm_actor.rs): the session
    registry, the project store and each project's editing-session set, the
    validate-then-mutate helpers, and the message handlers. A broadcast is a
    `Delivery` appended to `outbox`; a future the handler spawns is run to
    completion inside the handler, over the stage outcomes it is given. */
module Coordinator {
  import opened Types
  import opened Text
  import opened Segments
  import opened Pipelines
  import Collections

  /** Every member of any project's editing set. */
  function Members(editing: map<ProjectId, set<ClientId>>): (r: set<ClientId>)
    ensures forall u :: u in r <==> exists name :: name in editing && u in editing[name]
  {
    set name, u | name in editing && u in editing[name] :: u
  }

  /** The editing sets once `id` has left each of them. */
  function Without(editing: map<ProjectId, set<ClientId>>, id: ClientId): (r: map<ProjectId, set<ClientId>>)
    ensures r.Keys == editing.Keys
    ensures forall name :: name in r ==> r[name] == editing[name] - {id}
  {
    map name | name in editing :: editing[name] - {id}
  }

  /** Leaving every project removes exactly the leaver from the union of the
      editing sets: every other member of any project stays a recipient. */
  lemma MembersWithout(editing: map<ProjectId, set<ClientId>>, id: ClientId)
    ensures Members(Without(editing, id)) == Members(editing) - {id}
  {
  }

  /** `users` lists the elements of `s`, each once. */
  ghost predicate Lists(users: seq<ClientId>, s: set<ClientId>) {
    |users| == |s| && forall u :: u in users <==> u in s
  }

  /** The three messages `user_join_project` prepares. */
  datatype JoinMessages = JoinMessages(joinedUsers: ServerRequest, changeProject: ServerRequest,
                                       notifyJoin: ServerRequest)

  class SmActor {
    var sessions: map<SessionId, Channel>
    var projects: map<ProjectId, Project>
    var editingSessions: map<ProjectId, set<ClientId>>
    /** Every broadcast so far, in the order the futures send them. */
    var outbox: seq<Delivery>
    /** The `DownloadVideos` batches sent to the downloader. */
    var downloadRequests: seq<seq<VideoId>>

    /** Members are connected sessions (the recipient helpers look each one
        up in `sessions`), and a project is stored under its own name. */
    ghost predicate Valid()
      reads this
    {
      MembersConnected() && NamesMatch()
    }

    predicate MembersConnected()
      reads this
    {
      forall name, u :: name in editingSessions && u in editingSessions[name] ==> u in sessions
    }

    predicate NamesMatch()
      reads this
    {
      forall name :: name in projects ==> projects[name].name == name
    }

    /** What `create_project` establishes and `Load` does not. */
    predicate EveryProjectHasEditingSet()
      reads this
    {
      projects.Keys <= editingSessions.Keys
    }

    constructor ()
      ensures Valid()
      ensures sessions == map[] && projects == map[] && editingSessions == map[]
      ensures outbox == [] && downloadRequests == []
    {
      sessions, projects, editingSessions := map[], map[], map[];
      outbox, downloadRequests := [], [];
    }

    /** `get_all_recipients`: every connected session. */
    function AllRecipients(): (r: set<SessionId>)
      reads this
      ensures forall id :: id in r <==> id in sessions
      ensures MembersConnected() ==> Members(editingSessions) <= r
    {
      sessions.Keys
    }

    /** `get_all_cloned_recipients_project`: the project's editing set, each
        member resolved in the registry. */
    function ProjectRecipients(name: ProjectId): (r: set<SessionId>)
      reads this
      requires name in editingSessions && MembersConnected()
      ensures r <= sessions.Keys
      ensures forall id :: id in r <==> id in editingSessions[name]
    {
      editingSessions[name]
    }

    /** `get_all_cloned_recipients_project_except`: the same without `user`. */
    function ProjectRecipientsExcept(name: ProjectId, user: ClientId): (r: set<SessionId>)
      reads this
      requires name in editingSessions && MembersConnected()
      ensures r <= sessions.Keys && user !in r
      ensures forall id :: id in r <==> id in editingSessions[name] && id != user
    {
      editingSessions[name] - {user}
    }

    /** `create_project`: refuses a taken name; otherwise stores an empty
        project and an empty editing set under it. */
    method CreateProject(name: ProjectId, seed: Seed, urls: seq<VideoId>) returns (r: Result<Project, ServerError>)
      requires Valid()
      modifies this`projects, this`editingSessions
      ensures Valid()
      ensures name in old(projects) ==>
                r == Err(ProjectAlreadyExists) && projects == old(projects) &&
                editingSessions == old(editingSessions)
      ensures name !in old(projects) ==>
                r == Ok(NewProject(name, seed, urls)) &&
                projects == old(projects)[name := NewProject(name, seed, urls)] &&
                editingSessions == old(editingSessions)[name := {}]
    {
      if name in projects {
        return Err(ProjectAlreadyExists);
      }
      var project := NewProject(name, seed, urls);
      projects := projects[name := project];
      editingSessions := editingSessions[name := {}];
      r := Ok(project);
    }

    /** `delete_project`: removes the project only; its editing set stays. */
    method DeleteProject(name: ProjectId) returns (r: Result<ServerRequest, ServerError>)
      requires Valid()
      modifies this`projects
      ensures Valid()
      ensures name !in old(projects) ==> r == Err(ProjectDoesNotExist) && projects == old(projects)
      ensures name in old(projects) ==> r == Ok(RemoveProject(name)) && projects == old(projects) - {name}
      ensures editingSessions == old(editingSessions)
    {
      if name !in projects {
        return Err(ProjectDoesNotExist);
      }
      projects := projects - {name};
      r := Ok(RemoveProject(name));
    }

    /** `user_join_project`: refuses an unknown project and a second join;
        otherwise adds exactly `user`, and prepares the member list as it was
        before, a snapshot of the project and the join notice. The editing
        set is looked up by indexing, which panics for a project that has
        none. */
    method UserJoinProject(name: ProjectId, user: ClientId) returns (r: Result<JoinMessages, ServerError>)
      requires Valid()
      requires name in projects ==> name in editingSessions
      modifies this`editingSessions
      ensures user in sessions ==> Valid()
      ensures name !in projects ==> r == Err(ProjectDoesNotExist) && editingSessions == old(editingSessions)
      ensures name in projects && user in old(editingSessions)[name] ==>
                r == Err(UserAlreadyJoinedProject) && editingSessions == old(editingSessions)
      ensures name in projects && user !in old(editingSessions)[name] ==>
                && r.Ok?
                && editingSessions == old(editingSessions)[name := old(editingSessions)[name] + {user}]
                && r.value.joinedUsers.JoinedUsers?
                && Lists(r.value.joinedUsers.users, old(editingSessions)[name])
                && r.value.changeProject == ChangeProject(projects[name].seed, projects[name].videoIds,
                                                          projects[name].name, projects[name].segments)
                && r.value.notifyJoin == UserJoinedProject(user)
    {
      if name !in projects {
        return Err(ProjectDoesNotExist);
      }
      var users := editingSessions[name];
      if user in users {
        return Err(UserAlreadyJoinedProject);
      }
      var listed := Collections.Enumerate(users);
      editingSessions := editingSessions[name := users + {user}];
      var p := projects[name];
      r := Ok(JoinMessages(JoinedUsers(listed), ChangeProject(p.seed, p.videoIds, p.name, p.segments),
                           UserJoinedProject(user)));
    }

    /** `add_segment`: inserts a fresh segment at `position`, which may equal
        the length (append). */
    method AddSegment(name: ProjectId, position: u16, sentence: string) returns (r: Result<ServerRequest, ServerError>)
      requires Valid()
      modifies this`projects
      ensures Valid()
      ensures name !in old(projects) ==> r == Err(ProjectDoesNotExist) && projects == old(projects)
      ensures name in old(projects) && position > |old(projects)[name].segments| ==>
                r == Err(SegmentOutOfBounds) && projects == old(projects)
      ensures name in old(projects) && position <= |old(projects)[name].segments| ==>
                r == Ok(NewSegmentInserted(NewSegment(sentence), position)) &&
                projects == old(projects)[name := old(projects)[name].(segments :=
                  InsertAt(old(projects)[name].segments, position, NewSegment(sentence)))]
    {
      if name !in projects {
        return Err(ProjectDoesNotExist);
      }
      var p := projects[name];
      if position > |p.segments| {
        return Err(SegmentOutOfBounds);
      }
      var segment := NewSegment(sentence);
      projects := projects[name := p.(segments := InsertAt(p.segments, position, segment))];
      r := Ok(NewSegmentInserted(segment, position));
    }

    /** `modify_segment_sentence`: rewrites the sentence of an existing
        segment (position < length). */
    method ModifySegmentSentence(name: ProjectId, position: u16, sentence: string) returns (r: Result<ServerRequest, ServerError>)
      requires Valid()
      modifies this`projects
      ensures Valid()
      ensures name !in old(projects) ==> r == Err(ProjectDoesNotExist) && projects == old(projects)
      ensures name in old(projects) && position >= |old(projects)[name].segments| ==>
                r == Err(SegmentOutOfBounds) && projects == old(projects)
      ensures name in old(projects) && position < |old(projects)[name].segments| ==>
                r == Ok(ChangeSentence(position, sentence)) &&
                projects == old(projects)[name := old(projects)[name].(segments :=
                  WithSentence(old(projects)[name].segments, position, sentence))]
    {
      if name !in projects {
        return Err(ProjectDoesNotExist);
      }
      var p := projects[name];
      if position >= |p.segments| {
        return Err(SegmentOutOfBounds);
      }
      projects := projects[name := p.(segments := WithSentence(p.segments, position, sentence))];
      r := Ok(ChangeSentence(position, sentence));
    }

    /** `modify_segment_combo_index`: rewrites the combo index of an
        existing segment (position < length). */
    method ModifySegmentComboIndex(name: ProjectId, position: u16, index: u16) returns (r: Result<ServerRequest, ServerError>)
      requires Valid()
      modifies this`projects
      ensures Valid()
      ensures name !in old(projects) ==> r == Err(ProjectDoesNotExist) && projects == old(projects)
      ensures name in old(projects) && position >= |old(projects)[name].segments| ==>
                r == Err(SegmentOutOfBounds) && projects == old(projects)
      ensures name in old(projects) && position < |old(projects)[name].segments| ==>
                r == Ok(ChangeComboIndex(position, index)) &&
                projects == old(projects)[name := old(projects)[name].(segments :=
                  WithComboIndex(old(projects)[name].segments, position, index))]
    {
      if name !in projects {
        return Err(ProjectDoesNotExist);
      }
      var p := projects[name];
      if position >= |p.segments| {
        return Err(SegmentOutOfBounds);
      }
      projects := projects[name := p.(segments := WithComboIndex(p.segments, position, index))];
      r := Ok(ChangeComboIndex(position, index));
    }

    /** `remove_segment`: removes an existing segment (position < length). */
    method RemoveSegment(name: ProjectId, position: u16) returns (r: Result<ServerRequest, ServerError>)
      requires Valid()
      modifies this`projects
      ensures Valid()
      ensures name !in old(projects) ==> r == Err(ProjectDoesNotExist) && projects == old(projects)
      ensures name in old(projects) && position >= |old(projects)[name].segments| ==>
                r == Err(SegmentOutOfBounds) && projects == old(projects)
      ensures name in old(projects) && position < |old(projects)[name].segments| ==>
                r == Ok(RemoveSegmentAt(position)) &&
                projects == old(projects)[name := old(projects)[name].(segments :=
                  RemoveAt(old(projects)[name].segments, position))]
    {
      if name !in projects {
        return Err(ProjectDoesNotExist);
      }
      var p := projects[name];
      if position >= |p.segments| {
        return Err(SegmentOutOfBounds);
      }
      projects := projects[name := p.(segments := RemoveAt(p.segments, position))];
      r := Ok(RemoveSegmentAt(position));
    }

    /** `Connect`: registers the channel under the id the generator drew. */
    method HandleConnect(id: SessionId, channel: Channel) returns (r: SessionId)
      requires Valid()
      modifies this`sessions
      ensures Valid()
      ensures r == id && sessions == old(sessions)[id := channel]
    {
      sessions := sessions[id := channel];
      r := id;
    }

    /** `Disconnect`: removes the session from every editing set, in place,
        folds the union of all the sets, removes the session from the
        registry, and tells that union that it left. */
    method HandleDisconnect(id: ClientId)
      requires Valid()
      modifies this`editingSessions, this`sessions, this`outbox
      ensures Valid()
      ensures editingSessions == Without(old(editingSessions), id)
      ensures sessions == old(sessions) - {id}
      ensures outbox == old(outbox) + [Delivery(Members(editingSessions), UserLeftProject(id))]
      ensures Members(editingSessions) == Members(old(editingSessions)) - {id}
      ensures forall name :: name in editingSessions ==> id !in editingSessions[name]
      ensures id !in Members(editingSessions) && id !in sessions
    {
      ghost var before := editingSessions;
      var remaining := editingSessions.Keys;
      while remaining != {}
        modifies this`editingSessions
        invariant remaining <= before.Keys && editingSessions.Keys == before.Keys
        invariant forall name :: name in remaining ==> editingSessions[name] == before[name]
        invariant forall name :: name in before && name !in remaining ==>
                    editingSessions[name] == before[name] - {id}
        decreases remaining
      {
        var name :| name in remaining;
        editingSessions := editingSessions[name := editingSessions[name] - {id}];
        remaining := remaining - {name};
      }
      // The union fold over the updated editing sets.
      var recipients: set<ClientId> := {};
      var rooms := editingSessions.Keys;
      while rooms != {}
        invariant rooms <= editingSessions.Keys
        invariant forall u :: u in recipients <==>
                    exists n :: n in editingSessions && n !in rooms && u in editingSessions[n]
        decreases rooms
      {
        var n :| n in rooms;
        recipients := recipients + editingSessions[n];
        rooms := rooms - {n};
      }
      assert recipients == Members(editingSessions);
      MembersWithout(before, id);
      sessions := sessions - {id};
      outbox := outbox + [Delivery(recipients, UserLeftProject(id))];
    }

    /** `ListProjects`: a copy of every stored project, each once. */
    method HandleListProjects() returns (r: ServerRequest)
      requires Valid()
      ensures r.ChangeListProjects? && |r.projects| == |projects|
      ensures forall i :: 0 <= i < |r.projects| ==>
                r.projects[i].name in projects && projects[r.projects[i].name] == r.projects[i]
      ensures forall i, j :: 0 <= i < j < |r.projects| ==> r.projects[i].name != r.projects[j].name
    {
      var names := Collections.Enumerate(projects.Keys);
      var listed: seq<Project> := [];
      for i := 0 to |names|
        invariant |listed| == i
        invariant forall k :: 0 <= k < i ==> listed[k] == projects[names[k]]
      {
        listed := listed + [projects[names[i]]];
      }
      assert |projects.Keys| == |projects|;
      r := ChangeListProjects(listed);
    }

    /** `CreateProject`: creates the project, announces it to every session,
        joins the creator (which cannot fail on a fresh project) and asks the
        downloader for the project's videos. */
    method HandleCreateProject(id: ClientId, name: ProjectId, seed: Seed, urls: seq<VideoId>) returns (r: Result<(), ServerError>)
      requires Valid() && id in sessions
      modifies this`projects, this`editingSessions, this`outbox, this`downloadRequests
      ensures Valid()
      ensures old(EveryProjectHasEditingSet()) ==> EveryProjectHasEditingSet()
      ensures name in old(projects) ==>
                && r == Err(ProjectAlreadyExists) && projects == old(projects)
                && editingSessions == old(editingSessions) && outbox == old(outbox)
                && downloadRequests == old(downloadRequests)
      ensures name !in old(projects) ==>
                && r == Ok(())
                && projects == old(projects)[name := NewProject(name, seed, urls)]
                && editingSessions == old(editingSessions)[name := {id}]
                && outbox == old(outbox) + [
                     Delivery(sessions.Keys, NewProjectCreated(NewProject(name, seed, urls))),
                     Delivery({id}, JoinedUsers([])),
                     Delivery({id}, ChangeProject(seed, urls, name, [])),
                     Delivery({}, UserJoinedProject(id))]
                && downloadRequests == old(downloadRequests) + [urls]
    {
      var created := CreateProject(name, seed, urls);
      if created.Err? {
        return Err(created.error);
      }
      var project := created.value;
      var everyone := AllRecipients();
      var joined := UserJoinProject(name, id);
      assert joined.Ok?;
      var others := ProjectRecipientsExcept(name, id);
      assert others == {};
      assert joined.value.joinedUsers == JoinedUsers([]);
      downloadRequests := downloadRequests + [project.videoIds];
      outbox := outbox + [Delivery(everyone, NewProjectCreated(project)),
                          Delivery({id}, joined.value.joinedUsers),
                          Delivery({id}, joined.value.changeProject),
                          Delivery(others, joined.value.notifyJoin)];
      r := Ok(());
    }

    /** `DeleteProject`: removes the project and tells its former members. */
    method HandleDeleteProject(name: ProjectId) returns (r: Result<(), ServerError>)
      requires Valid() && (name in projects ==> name in editingSessions)
      modifies this`projects, this`outbox
      ensures Valid()
      ensures name !in old(projects) ==>
                r == Err(ProjectDoesNotExist) && projects == old(projects) && outbox == old(outbox)
      ensures name in old(projects) ==>
                && r == Ok(())
                && projects == old(projects) - {name}
                && name in editingSessions
                && outbox == old(outbox) + [Delivery(editingSessions[name], RemoveProject(name))]
    {
      var request := DeleteProject(name);
      if request.Err? {
        return Err(request.error);
      }
      var recipients := ProjectRecipients(name);
      outbox := outbox + [Delivery(recipients, request.value)];
      r := Ok(());
    }

    /** `JoinProject`: joins, sends the joining client the member list and
        the project snapshot, tells the other members, then sends the client
        the previews that are already available. */
    method HandleJoinProject(id: ClientId, name: ProjectId, lookups: seq<PreviewLookup>) returns (r: Result<(), ServerError>)
      requires Valid() && id in sessions
      requires name in projects ==> name in editingSessions && |lookups| == |projects[name].segments|
      modifies this`editingSessions, this`outbox
      ensures Valid()
      ensures name !in projects ==>
                r == Err(ProjectDoesNotExist) && editingSessions == old(editingSessions) && outbox == old(outbox)
      ensures name in projects && id in old(editingSessions)[name] ==>
                r == Err(UserAlreadyJoinedProject) && editingSessions == old(editingSessions) && outbox == old(outbox)
      ensures name in projects && id !in old(editingSessions)[name] ==>
                && r == Ok(())
                && editingSessions == old(editingSessions)[name := old(editingSessions)[name] + {id}]
                && exists users :: Lists(users, old(editingSessions)[name]) &&
                     outbox == old(outbox) + [
                       Delivery({id}, JoinedUsers(users)),
                       Delivery({id}, ChangeProject(projects[name].seed, projects[name].videoIds,
                                                    name, projects[name].segments)),
                       Delivery(old(editingSessions)[name], UserJoinedProject(id))] +
                     PreviewsBatch(id, CollectPreviews(projects[name].segments, lookups))
    {
      var joined := UserJoinProject(name, id);
      if joined.Err? {
        return Err(joined.error);
      }
      var others := ProjectRecipientsExcept(name, id);
      assert others == old(editingSessions)[name];
      var project := projects[name];
      var previews := CollectPreviews(project.segments, lookups);
      outbox := outbox + [Delivery({id}, joined.value.joinedUsers),
                          Delivery({id}, joined.value.changeProject),
                          Delivery(others, joined.value.notifyJoin)] + PreviewsBatch(id, previews);
      r := Ok(());
    }

    /** `CreateSegment`: inserts, then runs the preview pipeline, which
        analyses only a sentence that is not blank. */
    method HandleCreateSegment(name: ProjectId, position: u16, sentence: string, stages: PreviewStages)
      returns (r: Result<(), ServerError>)
      requires Valid() && (name in projects ==> name in editingSessions)
      modifies this`projects, this`outbox
      ensures Valid()
      ensures r.Err? ==> projects == old(projects) && outbox == old(outbox)
      ensures r == Err(ProjectDoesNotExist) <==> name !in old(projects)
      ensures r == Err(SegmentOutOfBounds) <==>
                name in old(projects) && position > |old(projects)[name].segments|
      ensures r.Ok? || r == Err(ProjectDoesNotExist) || r == Err(SegmentOutOfBounds)
      ensures r.Ok? ==>
                && name in old(projects)
                && projects == old(projects)[name := old(projects)[name].(segments :=
                     InsertAt(old(projects)[name].segments, position, NewSegment(sentence)))]
                && outbox == old(outbox) + PreviewPipeline(NewSegmentInserted(NewSegment(sentence), position),
                     editingSessions[name], NewSegment(sentence), position, Trim(sentence) != [], stages)
    {
      var request := AddSegment(name, position, sentence);
      if request.Err? {
        return Err(request.error);
      }
      assert request.value == NewSegmentInserted(NewSegment(sentence), position);
      assert projects[name].segments[position] == NewSegment(sentence);
      var preview := Trim(sentence) != [];
      outbox := outbox + SpawnPreview(name, position, request.value, preview, stages);
      r := Ok(());
    }

    /** `ModifySegmentSentence`: rewrites, then always runs the preview pipeline. */
    method HandleModifySegmentSentence(name: ProjectId, position: u16, sentence: string, stages: PreviewStages)
      returns (r: Result<(), ServerError>)
      requires Valid() && (name in projects ==> name in editingSessions)
      modifies this`projects, this`outbox
      ensures Valid()
      ensures r.Err? ==> projects == old(projects) && outbox == old(outbox)
      ensures r == Err(ProjectDoesNotExist) <==> name !in old(projects)
      ensures r == Err(SegmentOutOfBounds) <==>
                name in old(projects) && position >= |old(projects)[name].segments|
      ensures r.Ok? || r == Err(ProjectDoesNotExist) || r == Err(SegmentOutOfBounds)
      ensures r.Ok? ==>
                && name in old(projects) && position < |old(projects)[name].segments|
                && projects == old(projects)[name := old(projects)[name].(segments :=
                     WithSentence(old(projects)[name].segments, position, sentence))]
                && outbox == old(outbox) + PreviewPipeline(ChangeSentence(position, sentence),
                     editingSessions[name], projects[name].segments[position], position, true, stages)
    {
      var request := ModifySegmentSentence(name, position, sentence);
      if request.Err? {
        return Err(request.error);
      }
      outbox := outbox + SpawnPreview(name, position, request.value, true, stages);
      r := Ok(());
    }

    /** `ModifySegmentComboIndex`: rewrites, then always runs the preview pipeline. */
    method HandleModifySegmentComboIndex(name: ProjectId, position: u16, index: u16, stages: PreviewStages)
      returns (r: Result<(), ServerError>)
      requires Valid() && (name in projects ==> name in editingSessions)
      modifies this`projects, this`outbox
      ensures Valid()
      ensures r.Err? ==> projects == old(projects) && outbox == old(outbox)
      ensures r == Err(ProjectDoesNotExist) <==> name !in old(projects)
      ensures r == Err(SegmentOutOfBounds) <==>
                name in old(projects) && position >= |old(projects)[name].segments|
      ensures r.Ok? || r == Err(ProjectDoesNotExist) || r == Err(SegmentOutOfBounds)
      ensures r.Ok? ==>
                && name in old(projects) && position < |old(projects)[name].segments|
                && projects == old(projects)[name := old(projects)[name].(segments :=
                     WithComboIndex(old(projects)[name].segments, position, index))]
                && outbox == old(outbox) + PreviewPipeline(ChangeComboIndex(position, index),
                     editingSessions[name], projects[name].segments[position], position, true, stages)
    {
      var request := ModifySegmentComboIndex(name, position, index);
      if request.Err? {
        return Err(request.error);
      }
      outbox := outbox + SpawnPreview(name, position, request.value, true, stages);
      r := Ok(());
    }

    /** `RemoveSegment`: removes and tells the project's members. */
    method HandleRemoveSegment(name: ProjectId, position: u16) returns (r: Result<(), ServerError>)
      requires Valid() && (name in projects ==> name in editingSessions)
      modifies this`projects, this`outbox
      ensures Valid()
      ensures r.Err? ==> projects == old(projects) && outbox == old(outbox)
      ensures r == Err(ProjectDoesNotExist) <==> name !in old(projects)
      ensures r == Err(SegmentOutOfBounds) <==>
                name in old(projects) && position >= |old(projects)[name].segments|
      ensures r.Ok? || r == Err(ProjectDoesNotExist) || r == Err(SegmentOutOfBounds)
      ensures r.Ok? ==>
                && name in old(projects)
                && projects == old(projects)[name := old(projects)[name].(segments :=
                     RemoveAt(old(projects)[name].segments, position))]
                && outbox == old(outbox) + [Delivery(editingSessions[name], RemoveSegmentAt(position))]
    {
      var request := RemoveSegment(name, position);
      if request.Err? {
        return Err(request.error);
      }
      var recipients := ProjectRecipients(name);
      outbox := outbox + [Delivery(recipients, request.value)];
      r := Ok(());
    }

    /** `Export`: no existence check (the project and its editing set are
        looked up by indexing); the export future runs over the analyses of
        all segments and the later stage outcomes, assembling the sequence as
        the code is written. */
    method HandleExport(name: ProjectId, analyses: seq<Analysis>, videos: VideosOutcome,
                        renderOk: bool, artifact: Option<Bytes>) returns (r: Result<(), ServerError>)
      requires Valid() && name in projects && name in editingSessions
      requires |analyses| == |projects[name].segments|
      modifies this`outbox
      ensures r == Ok(())
      ensures outbox == old(outbox) + ExportPipeline(editingSessions[name], projects[name].segments,
                                                     ExportCombosAsWritten(projects[name].segments, analyses),
                                                     videos, renderOk, artifact)
    {
      var recipients := ProjectRecipients(name);
      var project := projects[name];
      var combos := ExportCombosAsWritten(project.segments, analyses);
      outbox := outbox + ExportPipeline(recipients, project.segments, combos, videos, renderOk, artifact);
      r := Ok(());
    }

    /** `Load`: stores a whole project under its own name unless the name is
        taken, and announces it; unlike `create_project` it creates no
        editing set. */
    method HandleLoad(project: Project) returns (r: Result<(), ServerError>)
      requires Valid()
      modifies this`projects, this`outbox
      ensures Valid()
      ensures project.name in old(projects) ==>
                r == Err(ProjectAlreadyExists) && projects == old(projects) && outbox == old(outbox)
      ensures project.name !in old(projects) ==>
                && r == Ok(())
                && projects == old(projects)[project.name := project]
                && outbox == old(outbox) + [Delivery(sessions.Keys, NewProjectCreated(project))]
      ensures r.Ok? && project.name !in editingSessions ==> !EveryProjectHasEditingSet()
    {
      if project.name in projects {
        return Err(ProjectAlreadyExists);
      }
      projects := projects[project.name := project];
      var everyone := AllRecipients();
      outbox := outbox + [Delivery(everyone, NewProjectCreated(project))];
      r := Ok(());
    }

    /** `send_broadcast_async_preview!`: snapshots the recipients and the
        edited segment, then runs the pipeline. */
    function SpawnPreview(name: ProjectId, position: u16, request: ServerRequest, preview: bool,
                          stages: PreviewStages): (out: seq<Delivery>)
      reads this
      requires MembersConnected() && name in projects && name in editingSessions
      requires position < |projects[name].segments|
      ensures out == PreviewPipeline(request, editingSessions[name], projects[name].segments[position],
                                     position, preview, stages)
    {
      PreviewPipeline(request, ProjectRecipients(name), projects[name].segments[position], position, preview, stages)
    }
  }

  /** The `Previews` message sent to the joining client, unless a lookup panicked. */
  function PreviewsBatch(id: ClientId, previews: Option<seq<Preview>>): (out: seq<Delivery>)
    ensures previews.None? ==> out == []
    ensures previews.Some? ==> out == [Delivery({id}, Previews(previews.value))]
  {
    match previews
    case None => []
    case Some(ps) => [Delivery({id}, Previews(ps))]
  }
}
