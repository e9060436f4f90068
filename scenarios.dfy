/** The call flow end to end, written as clients that rely on the handlers' contracts only. */
module Scenarios {
  import opened Http
  import opened CallModel
  import opened CallController
  import ExtensionController
  import ExtensionModel

  /** Creating extension 101 for +15550001111 in an empty directory lists exactly that entry,
      under the first key. */
  method CreateFirstExtension() returns (directory: seq<ExtensionModel.Extension>)
    ensures directory == [ExtensionModel.Extension(1, "+15550001111", "101")]
  {
    var table := new ExtensionController.ExtensionTable();
    assert table.All() == ExtensionController.ListBelow(map[], 1) == [];
    var created := table.CreateExtension(Text("+15550001111"), Text("101"), None);
    directory := table.All();
  }

  /** A call entering 101 is dialled to +15550001111 and logged as `ongoing`; an unknown
      extension is re-prompted and logs nothing; the status and recording callbacks then
      complete the call, the one applied last deciding the status; a recording callback for an
      unknown call is still answered with an empty voice response. */
  method RouteRecordAndComplete()
  {
    var directory := CreateFirstExtension();
    var log := new CallLog();
    var reply := log.HandleExtension(directory, Some("101"), Some("+15557770000"), Some("CA123"),
                                     "https://calls.example", 100, false);
    assert reply.verbs[1].Dial? && reply.verbs[1].number == "+15550001111";
    assert log.rows == [Call(1, "+15557770000", "+15550001111", Some("101"), "CA123", "ongoing", None, 100, 100)];

    var unknown := log.HandleExtension(directory, Some("102"), Some("+15557770000"), Some("CA124"),
                                       "https://calls.example", 110, false);
    assert unknown == RetryPrompt("https://calls.example");
    assert |log.rows| == 1;

    var status := log.CallStatusUpdate(Some("CA123"), Some("busy"), 150, false);
    assert status.StatusUpdated? && log.rows[0].status == "busy" && log.rows[0].recordingUrl.None?;

    var saved := log.SaveRecording(Some("CA123"), Some("https://prov/rec1.mp3"), 200, false);
    assert saved == Voice([]);
    assert log.rows[0].status == "completed" && log.rows[0].recordingUrl == Some("https://prov/rec1.mp3");

    var stray := log.SaveRecording(Some("CA999"), Some("https://prov/rec2.mp3"), 300, false);
    assert stray == Voice([]) && log.rows[0].recordingUrl == Some("https://prov/rec1.mp3");
  }
}
