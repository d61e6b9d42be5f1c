/**
 * Concrete runs of the key derivation and of the task loop: the timestamp
 * example, the error cases, an unnormalised destination directory, and a
 * listing whose third name stops the loop.
 */
module Scenarios {
  import opened Wrappers
  import opened Decimal
  import opened PosixPath
  import opened CopyFiles

  /**
   * A file name under `directory` whose first '-' is at position `k` and whose
   * `k` leading characters are digits goes to the slice of its `k`-th digit.
   */
  lemma NumberedName(directory: string, name: string, k: nat)
    requires |directory| == 0 || directory[|directory| - 1] == Sep
    requires 0 < k < |name| && name[k] == PrefixEnd && Sep !in name
    requires forall j :: 0 <= j < k ==> IsDigit(name[j])
    ensures Basename(directory + name) == name
    ensures NumericPrefix(directory + name) == name[..k]
    ensures SliceIndex(directory + name) == Ok(DigitValue(name[k - 1]))
  {
    BasenameAfterDirectory(directory, name);
    BasenameOfPlainName(name);
    LeadingTokenAt(name, k);
    var token := name[..k];
    assert NumericPrefix(directory + name) == token;
    assert IsNumeral(token);
    assert token[k - 1] == name[k - 1];
  }

  /** Such a name is copied to the folder named by that digit, under its own name. */
  lemma NumberedDestination(destinationDirectory: string, directory: string, name: string, k: nat)
    requires |directory| == 0 || directory[|directory| - 1] == Sep
    requires 0 < k < |name| && name[k] == PrefixEnd && Sep !in name
    requires forall j :: 0 <= j < k ==> IsDigit(name[j])
    ensures DestinationKey(destinationDirectory, directory + name)
      == Ok(destinationDirectory + "/" + [name[k - 1]] + "/" + name)
  {
    var key := directory + name;
    assert SliceIndex(key) == Ok(DigitValue(name[k - 1])) && Basename(key) == name by {
      NumberedName(directory, name, k);
    }
    DestinationLayout(destinationDirectory, key);
    assert DigitChar(DigitValue(name[k - 1])) == name[k - 1];
  }

  /**
   * A timestamp name goes to the slice of its last digit, under any folder
   * and for any destination directory.
   */
  lemma TimestampSlice(destinationDirectory: string, directory: string, name: string)
    requires |directory| == 0 || directory[|directory| - 1] == Sep
    requires name == "1700000005-b.txt"
    ensures DestinationKey(destinationDirectory, directory + name) == Ok(destinationDirectory + "/5/" + name)
  {
    NumberedDestination(destinationDirectory, directory, name, 10);
    assert destinationDirectory + "/" + [name[9]] + "/" + name == destinationDirectory + "/5/" + name;
  }

  /** The timestamp 1700000010 under a source folder goes to slice 0; the folder is dropped. */
  lemma TimestampInFolder(name: string)
    requires name == "1700000010-c.txt"
    ensures DestinationKey("out", "in/" + name) == Ok("out/0/" + name)
  {
    NumberedDestination("out", "in/", name, 10);
    assert "out" + "/" + [name[9]] + "/" + name == "out/0/" + name;
  }

  /** A trailing '/' on the destination directory is kept, giving an empty path segment. */
  lemma TrailingSlashKept(key: string)
    requires key == "12-a.txt"
    ensures DestinationKey("out/", key) == Ok("out//2/" + key)
  {
    assert DestinationKey("out/", key) == Ok("out/" + "/" + [key[1]] + "/" + key) by {
      assert "" + key == key;
      NumberedDestination("out/", "", key, 2);
    }
    assert "out/" + "/" + [key[1]] + "/" + key == "out//2/" + key;
  }

  /** A non-numeric prefix is an error naming the token; no destination is produced. */
  lemma NonNumericPrefix(key: string)
    requires key == "abc-file.txt"
    ensures DestinationKey("out", key) == Err(InvalidLiteral("abc"))
  {
    assert Sep !in key;
    BasenameOfPlainName(key);
    LeadingTokenAt(key, 3);
    assert NumericPrefix(key) == key[..3] == "abc";
    assert !IsDigit(key[0]);
  }

  /**
   * A file name that starts with '-' has an empty prefix, which is an error
   * too, whatever folder it is listed under and wherever it would be copied.
   */
  lemma EmptyPrefix(destinationDirectory: string, directory: string, name: string)
    requires |directory| == 0 || directory[|directory| - 1] == Sep
    requires |name| > 0 && name[0] == PrefixEnd && Sep !in name
    ensures DestinationKey(destinationDirectory, directory + name) == Err(InvalidLiteral(""))
  {
    BasenameAfterDirectory(directory, name);
    BasenameOfPlainName(name);
    LeadingTokenAt(name, 0);
  }

  /** Without a '-', the whole basename is the prefix: a bare number is placed by its last digit. */
  lemma NoDashNumber(key: string)
    requires key == "in/42"
    ensures DestinationKey("out", key) == Ok("out/2/42")
  {
    var name := key[3..];
    assert key == "in/" + name;
    assert Basename(key) == name by {
      BasenameAfterDirectory("in/", name);
      BasenameOfPlainName(name);
    }
    assert LeadingToken(name) == name by {
      LeadingTokenIsFirstField(name);
    }
    assert IsNumeral(name);
    DestinationLayout("out", key);
    assert "out" + "/" + [DigitChar(2)] + "/" + name == "out/2/42";
  }

  /** Without a '-', the extension stays in the prefix, which is then no numeral. */
  lemma NoDashExtension(key: string)
    requires key == "in/42.txt"
    ensures DestinationKey("out", key) == Err(InvalidLiteral("42.txt"))
  {
    var name := key[3..];
    assert key == "in/" + name;
    assert Basename(key) == name by {
      BasenameAfterDirectory("in/", name);
      BasenameOfPlainName(name);
    }
    assert LeadingToken(name) == name by {
      LeadingTokenIsFirstField(name);
    }
    assert !IsDigit(name[2]);
  }

  /** The folder marker of a listing is dropped; the object names keep their order. */
  lemma ListingWithMarker(listing: seq<string>)
    requires listing == ["in/", "in/15-a.txt", "in/x-b.txt", "in/27-c.txt"]
    ensures FilterFiles(listing) == ["in/15-a.txt", "in/x-b.txt", "in/27-c.txt"]
  {
    var files := ["in/15-a.txt", "in/x-b.txt", "in/27-c.txt"];
    assert FilterFiles(listing[..1]) == [] by {
      assert listing[..1] == ["in/"];
    }
    assert FilterFiles(listing[..2]) == files[..1] by {
      assert listing[..2][..1] == listing[..1];
    }
    assert FilterFiles(listing[..3]) == files[..2] by {
      assert listing[..3][..2] == listing[..2];
      assert !IsFolderMarker(listing[2]);
    }
    assert listing[..3] == listing[..|listing| - 1];
    assert !IsFolderMarker(listing[3]);
  }

  /** The loop submits the first file's task and stops at the second, whatever the third is. */
  lemma StopsAtSecond(derive: string -> Result<string, DeriveError>, files: seq<string>, first: string)
    requires |files| == 3
    requires derive(files[0]) == Ok(first)
    requires derive(files[1]).Err?
    ensures Submitted("src", "dst", derive, files)
      == Submission([CopyTask("src", files[0], "dst", first)], Some(derive(files[1]).error))
  {
    var task := CopyTask("src", files[0], "dst", first);
    assert Submitted("src", "dst", derive, files[..1]) == Submission([task], None) by {
      assert files[..1][..0] == [];
    }
    assert files[..2][..1] == files[..1];
    assert files[..2] == files[..|files| - 1];
  }

  /** The numbered file of that listing goes to slice 5. */
  lemma NumberedInFolder(key: string)
    requires key == "in/15-a.txt"
    ensures DestinationKey("out", key) == Ok("out/5/15-a.txt")
  {
    var name := key[3..];
    assert key == "in/" + name;
    NumberedDestination("out", "in/", name, 2);
    assert "out" + "/" + [name[1]] + "/" + name == "out/5/15-a.txt";
  }

  /** The file with a word for a prefix cannot be placed. */
  lemma WordInFolder(key: string)
    requires key == "in/x-b.txt"
    ensures DestinationKey("out", key) == Err(InvalidLiteral("x"))
  {
    var name := key[3..];
    assert key == "in/" + name;
    BasenameAfterDirectory("in/", name);
    BasenameOfPlainName(name);
    LeadingTokenAt(name, 1);
    assert name[..1] == "x";
  }

  /**
   * A listing with a folder marker, a numbered file, a file with a word for a
   * prefix and another numbered file: the marker is skipped, the first file is
   * submitted, the second stops the loop, and the third is never submitted.
   */
  lemma StopsAtFirstBadName(listing: seq<string>)
    requires listing == ["in/", "in/15-a.txt", "in/x-b.txt", "in/27-c.txt"]
    ensures Submitted("src", "dst", Deriver("out"), FilterFiles(listing))
      == Submission([CopyTask("src", "in/15-a.txt", "dst", "out/5/15-a.txt")], Some(InvalidLiteral("x")))
  {
    var files := FilterFiles(listing);
    ListingWithMarker(listing);
    NumberedInFolder(files[0]);
    WordInFolder(files[1]);
    StopsAtSecond(Deriver("out"), files, "out/5/15-a.txt");
  }
}
