/**
 * The two name transforms of the indexer: folder-scoped types are
 * listed under a "...Folder" request name, and listing keys that end in
 * "Folder" are mapped back to the canonical type name.
 */
module FolderNames {
  import opened Strings

  /** `_transformFolderNameForListRequest`: `X` becomes `XFolder`, except `EmailTemplate`. */
  function ForListRequest(typeName: string): string
  {
    var requestType := typeName + "Folder";
    if requestType == "EmailTemplateFolder" then "EmailFolder" else requestType
  }

  /** `_transformFolderNameToBaseName`: drops the first "Folder", except `EmailFolder`. */
  function ToBaseName(typeName: string): string
  {
    if typeName == "EmailFolder" then "EmailTemplate"
    else ReplaceFirst(typeName, "Folder", "")
  }

  /** Every request name for a folder-scoped type ends in "Folder". */
  lemma RequestNameEndsInFolder(typeName: string)
    ensures EndsWith(ForListRequest(typeName), "Folder")
  {
    var requestType := typeName + "Folder";
    assert requestType[|requestType| - 6..] == "Folder";
  }

  /** In `n + "Folder"`, the first "Folder" is the appended one when `n` has none of its own. */
  lemma {:induction false} FirstFolderIsAppended(n: string)
    requires !Contains(n, "Folder")
    ensures IndexOf(n + "Folder", "Folder") == |n|
  {
    var m := n + "Folder";
    assert OccursAt(m, "Folder", |n|) by {
      assert m[|n|..|n| + 6] == "Folder";
    }
    forall i | 0 <= i < |n| ensures !OccursAt(m, "Folder", i) {
      if i + 6 <= |n| {
        assert !OccursAt(n, "Folder", i);
        assert m[i..i + 6] == n[i..i + 6];
      } else {
        // An occurrence here would straddle the seam; its letter at the seam
        // is one of "older", never the 'F' that starts the appended text.
        var d := |n| - i;
        assert m[i..i + 6][d] == m[|n|] == 'F';
        assert "Folder"[d] != 'F';
      }
    }
  }

  /** Mapping a request name back recovers the type name, for names without "Folder" other than "Email". */
  lemma BaseNameInvertsRequestName(typeName: string)
    requires !Contains(typeName, "Folder") && typeName != "Email"
    ensures ToBaseName(ForListRequest(typeName)) == typeName
  {
    if typeName != "EmailTemplate" {
      var m := typeName + "Folder";
      assert m[..|typeName|] == typeName;
      assert m != "EmailTemplateFolder" by {
        if |m| == 19 { assert "EmailTemplateFolder"[..13] == "EmailTemplate"; }
      }
      assert m != "EmailFolder" by {
        if |m| == 11 { assert "EmailFolder"[..5] == "Email"; }
      }
      FirstFolderIsAppended(typeName);
      assert m[..|typeName|] == typeName;
      assert m[|typeName| + 6..] == "";
    }
  }

  /** "Email" is the name the inverse cannot recover: its request name is the one `EmailTemplate` uses. */
  lemma EmailIsNotRecovered()
    ensures ForListRequest("Email") == ForListRequest("EmailTemplate") == "EmailFolder"
    ensures ToBaseName(ForListRequest("Email")) == "EmailTemplate"
  {
  }

  /** A name that already holds "Folder" loses that one instead of the appended one. */
  lemma FolderInNameIsNotRecovered()
    ensures ToBaseName(ForListRequest("FolderX")) == "XFolder"
  {
    var m := "FolderXFolder";
    assert OccursAt(m, "Folder", 0) by { assert m[0..6] == "Folder"; }
    assert IndexOf(m, "Folder") == 0;
    assert m[6..] == "XFolder";
  }
}
